/** The static project catalogue the carousel shows. */
module ProjectData {

  /** One project card. `image` names the bundled asset file. */
  datatype ProjectEntry = ProjectEntry(
    id: nat,
    title: string,
    image: string,
    technologies: seq<string>,
    demoLink: string,
    codeLink: string
  )

  /** The marker a `demoLink` holds when the project has no live demo. */
  const NoDemo := "N/A"

  /** The card offers a demo link only when `demoLink` is non-empty (an
      empty string is falsy) and is not the marker. */
  predicate DemoAvailable(p: ProjectEntry) {
    p.demoLink != "" && p.demoLink != NoDemo
  }

  const Projects: seq<ProjectEntry> := [
    ProjectEntry(1, "Personal Blog", "blog.png",
      ["HTML", "CSS", "JavaScript"],
      "https://portfolio-new-steel-psi.vercel.app/",
      "https://github.com/chamithsandeepa/Portfolio.git"),
    ProjectEntry(2, "Fetch Me Home", "FetchMe.png",
      ["React", "TypeScript", "Tailwind CSS", "MongoDB", "Spring Boot", "AWS"],
      "https://fetch-me-home-front-end.vercel.app/",
      "https://github.com/chamithsandeepa/Fetch_Me_Home_FrontEnd.git"),
    ProjectEntry(3, "Netflix Clone", "netflix.png",
      ["React.js", "Spring Boot", "MongoDB"],
      "https://netflix-clone-frontend-hiup.vercel.app/",
      "https://github.com/chamithsandeepa/Netflix_Clone_Frontend.git"),
    ProjectEntry(4, "Real Estate", "real.png",
      ["ReactJS", "Tailwind CSS", "EmailJS"],
      "https://real-estate-frontend-chi.vercel.app/",
      "https://github.com/chamithsandeepa/Real-Estate-Frontend.git"),
    ProjectEntry(5, "ToDo App", "ToDo.png",
      ["ReactJS", "Tailwind CSS"],
      "https://to-do-app-psi-eight.vercel.app/",
      "https://github.com/chamithsandeepa/ToDo-App-.git"),
    ProjectEntry(6, "Travel Blog", "travel.png",
      ["HTML", "CSS", "JavaScript", "PHP", "MySQL"],
      NoDemo,
      "https://github.com/chamithsandeepa/Travel_Booking_System.git")
  ]

  /** The catalogue holds six cards whose ids are 1 to 6 in order, so the
      ids are distinct keys. */
  lemma CatalogueIds()
    ensures |Projects| == 6
    ensures forall k :: 0 <= k < |Projects| ==> Projects[k].id == k + 1
    ensures forall a, b :: 0 <= a < b < |Projects| ==> Projects[a].id != Projects[b].id
  {
  }

  /** Every card has a demo except the last one, whose link is the marker. */
  lemma OnlyLastCardLacksDemo()
    ensures forall k :: 0 <= k < |Projects| ==> (DemoAvailable(Projects[k]) <==> k != 5)
  {
  }
}
