# Portfolio site: verified model of its interactive logic

The site is a single-page portfolio. Nearly all of it is markup and animation,
but four components hold small pieces of sequential logic, and this project
models those pieces in Dafny and proves what they promise:

- the **project carousel** (`Projects.jsx`): the current index moved by the
  previous/next buttons and the autoplay timer, with wrap-around, and the
  display role (centre, left, right, hidden) of every card; plus the static
  project catalogue (`projects.js`) and the "demo available" test;
- the **contact form** (`Contact.jsx`): field edits, the ordered
  first-failure-wins validation (trimmed name, e-mail shape
  `^[^\s@]+@[^\s@]+\.[^\s@]+$`, trimmed message), and the submit lifecycle
  over `formData`, `isSubmitting` and `formStatus`, with the mail relay's
  answer as an input (`SendOutcome`);
- the **skills tabs** (`Skills.jsx`): the static skill list and its filter by
  the active tab, where the tab `"all"` shows everything;
- the **navigation bar** (`Navbar.jsx`): the mobile menu flag, the
  scroll-threshold flag, and the capitalised link labels.

Modules: `Wrappers` (an `Option` type for the source's `null`), `JsText`
(ECMAScript whitespace, `trim`, upper-casing one character), `EmailPattern`
(the e-mail regular expression, read literally and as a search-free decision
procedure, proved equal), `ContactForm`, `ProjectData`, `Carousel`,
`SkillsTab` and `Navbar`.

Whitespace is the exact ECMAScript set of WhiteSpace and LineTerminator code
points, which is both what `trim` strips and what `\s` matches, so the name,
message and e-mail checks are modelled without abstraction.

Details of the code the model keeps:

- a validation failure only sets `formStatus` to the error notice; it does not
  put the form into a failed submission state, and `isSubmitting` is untouched;
- starting a send clears `formStatus` (`Contact.jsx` line 79);
- the carousel is never built over an empty list, but the code has no guard
  for one: the model requires a non-empty list rather than inventing a check.

## Model

| member | source | states |
|---|---|---|
| Carousel.Next | src/Pages/Projects.jsx:14-16 | the next index stays in range and equals (current + 1) mod length |
| Carousel.Prev | src/Pages/Projects.jsx:10-12 | the previous index stays in range and equals (current - 1 + length) mod length |
| Carousel.PrevNextInverse | src/Pages/Projects.jsx:10-16 | a step back undoes a step forward and vice versa |
| Carousel.AdvanceIsShift | src/Pages/Projects.jsx:14-16 | n forward steps move the index by n modulo the length |
| Carousel.FullCycle | src/Pages/Projects.jsx:14-16 | length forward steps return the carousel to the card it started on |
| Carousel.GetPosition | src/Pages/Projects.jsx:25-47 | centre iff the card is current; below three cards only centre or hidden; otherwise left iff the card is the previous one, right iff it is the next one, hidden otherwise |
| Carousel.RoleCounts | src/Pages/Projects.jsx:25-47 | exactly one card is centred; exactly one left and one right with three or more cards, none with fewer |
| Carousel.NextShiftsRoles | src/Pages/Projects.jsx:14-47 | after a forward step the old right card is centred, the old centre is left, and the old left card is right (three cards) or hidden (more) |
| Carousel.PrevShiftsRoles | src/Pages/Projects.jsx:10-47 | after a backward step the old left card is centred and the old centre is right |
| Carousel.Replay | src/Pages/Projects.jsx:10-23 | any run of button clicks and autoplay ticks keeps the index in range |
| Carousel.ReplayIsDisplacement | src/Pages/Projects.jsx:10-23 | a run of clicks and ticks lands on the start moved by forward-minus-backward moves, modulo the length |
| Carousel.NextOfMod | src/Pages/Projects.jsx:14-16 | a forward step from any index reduced modulo the length is the next residue |
| Carousel.PrevOfMod | src/Pages/Projects.jsx:10-12 | a backward step from any index reduced modulo the length is the previous residue |
| Carousel.CatalogueAlwaysHasSides | src/Pages/Projects.jsx:26-46 | the live catalogue has at least three cards, so every state shows exactly one left and one right card |
| Carousel.FiveCardsExample | src/Pages/Projects.jsx:25-47 | with five cards and the third current: left 1, centre 2, right 3, others hidden |
| ProjectData.CatalogueIds | src/assets/projects.js:8-76 | six cards with ids 1 to 6 in order, all distinct |
| ProjectData.OnlyLastCardLacksDemo | src/Pages/Projects.jsx:157 | a card offers its demo iff its link is neither empty nor "N/A", which in the catalogue is every card but the last |
| ContactForm.HandleChange | src/Pages/Contact.jsx:56-59 | a change event sets the named field to the new value and leaves the other two unchanged |
| ContactForm.Validate | src/Pages/Contact.jsx:61-67 | missing name iff the name is blank; invalid e-mail iff the name is not blank and the e-mail does not match the pattern; missing message iff the first two pass and the message is blank; no error iff all three pass |
| ContactForm.ValidationExamples | src/Pages/Contact.jsx:61-67 | an empty name is reported first, "not-an-email" is rejected, a complete form passes |
| ContactForm.BeginSubmit | src/Pages/Contact.jsx:69-80 | while submitting the event is ignored (button disabled, line 256); on a validation error only the status changes; otherwise submitting starts, the status clears and the current form is sent, and only validated data is ever sent |
| ContactForm.FinishSubmit | src/Pages/Contact.jsx:81-101 | submitting always ends; delivery clears all fields and shows the success text; failure keeps the fields and shows the fixed error text |
| ContactForm.HandleSubmit | src/Pages/Contact.jsx:69-101 | a whole submit: rejected forms keep their fields and show the reason; delivered forms are cleared; failed sends keep their input; the fields change only on delivery |
| ContactForm.Step | src/Pages/Contact.jsx:56-101 | a send starts only from an idle submit and only with validated data; submitting ends only on the send's completion; the fields change only by an edit or a delivery |
| ContactForm.SingleSendInFlight | src/Pages/Contact.jsx:69-101 | over any run from an idle state, sends started equal sends completed plus one exactly while submitting, and every sent payload passed validation |
| JsText.Trim | src/Pages/Contact.jsx:62 | the trimmed text is a piece of the input, everything dropped before and after it is whitespace, it neither starts nor ends with whitespace, and it is empty iff the input is blank |
| EmailPattern.IsValidEmailMatchesPattern | src/Pages/Contact.jsx:63 | the search-free e-mail check accepts exactly the inputs the regular expression matches |
| EmailPattern.ValidEmailMatches | src/Pages/Contact.jsx:63 | an input the e-mail check accepts splits into local part, `@`, domain label, `.`, and suffix as the pattern requires |
| EmailPattern.MatchIsValidEmail | src/Pages/Contact.jsx:63 | any split the pattern accepts makes the e-mail check accept |
| EmailPattern.IndexOf | src/Pages/Contact.jsx:63 | the position found holds the first `@`, or the input has none |
| SkillsTab.OfCategory | src/Pages/Skills.jsx:53 | the filtered list keeps every skill of the category as often as it occurs, nothing else, in original order |
| SkillsTab.FilteredSkills | src/Pages/Skills.jsx:52-53 | "all" gives the whole list; any other tab gives a no-longer subsequence whose skills all have that category and which holds every skill of that category exactly as often as the list does |
| SkillsTab.CategoryTabsPartition | src/Pages/Skills.jsx:41-53 | when every category is a tab, the five category tabs' filtered lists together have exactly as many entries as the list: each skill shows under exactly one category tab |
| SkillsTab.LiveTabsPartitionSkills | src/Pages/Skills.jsx:8-53 | the live list's twenty skills are split across the five category tabs with none left out |
| SkillsTab.TabsCoverCategories | src/Pages/Skills.jsx:8-49 | the first tab is "all", every tab has a label, and every skill's category is one of the other tabs |
| Navbar.Capitalize | src/Components/Navbar.jsx:48 | the label has the item's length, its first character upper-cased and the rest unchanged |
| Navbar.CapitalizeIdempotent | src/Components/Navbar.jsx:74 | capitalising a label again changes nothing |
| Navbar.NavLabels | src/Components/Navbar.jsx:25 | the five items are shown as Home, About, Skills, Projects, Contact |
| Navbar.Step | src/Components/Navbar.jsx:8-23 | the menu button flips the menu, a menu link closes it, a scroll sets the compact flag iff the offset exceeds 10 |
| Navbar.MenuParity | src/Components/Navbar.jsx:17-19 | with no link clicked, the menu is open iff its start state and the parity of button presses say so; two presses restore it |
| Navbar.CloseIdempotent | src/Components/Navbar.jsx:21-23 | a link click closes the menu from any state, and a second one changes nothing |
| Navbar.ScrolledTracksLastOffset | src/Components/Navbar.jsx:9-11 | after any run the compact flag says whether the last scroll offset exceeded 10 |
| Navbar.ScrolledUnchangedWithoutScroll | src/Components/Navbar.jsx:9-11 | a run with no scroll event leaves the compact flag as it started |

## Left out

- Animations, layout, styling classes and markup: presentation only.
- The mail relay call and its service, template and key strings: a foreign network call; its answer is the `SendOutcome` input.
- Notice timers (4000 and 5000 ms) and the 5000 ms autoplay interval: timing is not modelled; a timer firing is the untimed `NoticeExpired` event (which clears any notice) and an autoplay tick is `AutoplayTick` (a forward step).
- The window scroll listener, `scrollIntoView`, the image fallback, and the current year in the footer: browser and clock I/O.
- `Hero.jsx`, `About.jsx`, `Footer.jsx`, `App.jsx`: static content and composition with no behaviour to state.
- JsText.ToUpper: upper-cases ASCII letters only; JavaScript's `toUpperCase` also maps other letters, some to several characters.
- Navbar.Step: the scroll offset is a real number rather than a floating-point value.
- ContactForm.HandleChange: the changed field is one of the three inputs; the source's computed key could add an arbitrary key, but only these three inputs call it.
- ContactForm.Step: a send completion that arrives with no send in flight is ignored; the source never produces one.
- Skill proficiency values are carried as data; they set a progress bar's width and its percentage label, both presentation.
- The failed-send branch also writes the error to the browser console; logging is output only and is not modelled.
- The catalogue records omit each project's description: display prose that no logic reads.
