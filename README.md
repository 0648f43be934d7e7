# Portfolio page controller: contact-form validation and UI state

A Dafny model of the two parts of the portfolio site's `app.js` that carry logic
rather than browser plumbing:

- **The contact-form validator.** `validateForm` checks the trimmed name, email, subject
  and message. It returns `isValid` and a map from field to error message.
  `validateField` is the per-control twin. The email check
  `/^[^\s@]+@[^\s@]+\.[^\s@]+$/` is decided by a finite automaton equivalent to it
  (`EmailPattern.EmailTest`). It is proved equal to the pattern's
  language and to the shape `L@R`:
  - `L` is non-empty;
  - neither part holds white space or `@`;
  - `R` has a dot that is neither its first nor its last character.

  `\s` is ECMAScript's white-space and line-terminator set (`Text.IsSpace`). `trim` removes
  the same set.
- **The `PortfolioApp` controller's state.** The `this.state` record is modelled as the class
  `Portfolio.PortfolioApp`. Beside it sit the `portfolio-theme` storage slot, the single
  notification banner, and the `active`/`hidden` classes the handlers write on nav links, tab
  buttons, tab panels, skill filter tabs and skill items. Each handler is a method; what it read
  from the DOM or the event is a parameter. The `forEach` loops over element lists are `while`
  loops over arrays of flags. The filter tests of `filterSkills`, `handleSkillSearch` and
  `filterProjects` are predicates. The character-counter colour and `getNotificationIcon` are
  functions.

Modules, one per concern:

| module | file |
|---|---|
| `Wrappers` | `wrappers.dfy` |
| `Text` | `text.dfy` |
| `EmailPattern` | `email.dfy` |
| `FormValidation` | `form_validation.dfy` |
| `Selection` | `selection.dfy` |
| `Filters` | `filters.dfy` |
| `Notifications` | `notifications.dfy` |
| `Portfolio` | `portfolio_app.dfy` |

A value JavaScript may leave `null` or `undefined` is an `Option`. Examples: an attribute read
with `getAttribute`, `href?.substring(1)`, `formData.get(x)?.trim()`. JavaScript's `===` between
such values is `Option` equality.

## Model

| member | source | states |
|---|---|---|
| `Text.TrimStart` | app.js:840-843 | the result is a suffix of the input, does not start with white space, and only white space was dropped |
| `Text.TrimEnd` | app.js:840-843 | the result is a prefix of the input, does not end with white space, and only white space was dropped |
| `Text.Trim` | app.js:840-843 | `trim()` gives an infix that neither starts nor ends with white space and is surrounded in the input only by white space |
| `Text.TrimIdempotent` | app.js:917 | trimming twice is trimming once |
| `Text.TrimEmptyIffAllSpace` | app.js:764 | a string trims to "" exactly when it is all white space |
| `Text.ToLower` | app.js:764-766 | `toLowerCase` keeps the length and maps each character separately |
| `Text.ToLowerIdempotent` | app.js:764-766 | lower-casing twice is lower-casing once |
| `Text.ToLowerConcat` | app.js:766 | lower-casing distributes over concatenation |
| `Text.ToLowerTrimCommute` | app.js:764 | `toLowerCase().trim()` equals `trim().toLowerCase()` |
| `Text.ContainsTrivial` | app.js:690 | `includes("")` always holds, and every string includes itself |
| `EmailPattern.EmailTestIffShape` | app.js:885-892 | the automaton for the email regex accepts exactly the strings `L@R` with `L` non-empty, no white space or `@` in either part, and a dot at an index `0 < i < |R|-1` of `R` |
| `EmailPattern.ShapeIffPattern` | app.js:885 | that shape is exactly the language of `^[^\s@]+@[^\s@]+\.[^\s@]+$`: `A@B.C` with `A`, `B`, `C` non-empty runs of `[^\s@]` |
| `EmailPattern.EmailTestIffPattern` | app.js:885-892 | `emailRegex.test(s)` holds exactly for the strings of the pattern's language |
| `EmailPattern.AcceptedHasOneAt` | app.js:885 | an accepted address has exactly one `@`, neither first nor last, and no white space |
| `FormValidation.FieldOf` | app.js:922-952 | a control's `name` selects one of the four fields exactly when it is that field's key |
| `FormValidation.ValidateForm` | app.js:874-913 | `isValid` is false exactly when some error is recorded; a field has an error exactly when its rule fails, and the error is that rule's message |
| `FormValidation.AbsentIsEmpty` | app.js:879-903 | an absent value (`undefined`) is judged exactly like "" |
| `FormValidation.NameRule` | app.js:879-882 | the name fails exactly when it has fewer than 2 characters, with the name message; "Jo" passes |
| `FormValidation.EmailRule` | app.js:885-892 | an empty email gives "Please enter your email address"; a non-empty one gives "Please enter a valid email address" exactly when it is outside the pattern's language (equivalently, not `L@R`); the email passes exactly when it is non-empty and in the language |
| `FormValidation.SubjectRule` | app.js:895-898 | the subject fails exactly when it is empty |
| `FormValidation.MessageRule` | app.js:900-910 | the message fails exactly when its length is outside [10, 500]; "enter your message" iff empty, "at least 10" iff length 1 to 9, "not exceed 500" iff length above 500 |
| `FormValidation.ValidateFieldAgreesWithForm` | app.js:915-952 | `validateField` on a control reports an error `m` exactly when `validateForm` records `m` for that field on the trimmed value, and reports "Looks good" exactly when it records none |
| `FormValidation.FeedbackForField` | app.js:922-952 | the `switch` of `validateField`, written out with its own tests and message texts, gives for each field's key the same verdict and message as that field's rule in `validateForm` |
| `FormValidation.ValidateFieldTrimInsensitive` | app.js:917 | `validateField` gives the same verdict for a value and for its trimmed form |
| `FormValidation.ValidateFieldUnknownKey` | app.js:922-955 | a control whose name is none of the four fields is reported as good |
| `FormValidation.ValidationExamples` | app.js:874-913 | name "", email "x", subject "", message "short" fail all four rules; "Jo", "a@b.co", "General" and a 29-character message pass all four |
| `FormValidation.CounterColourBands` | app.js:1001-1016 | the counter is red exactly above 500 characters, amber from 401 to 500, plain up to 400; a message that is too long once trimmed always shows red |
| `Selection.MarkSelected` | app.js:310-317 | the `forEach` leaves exactly the elements whose key equals the selection marked active |
| `Selection.SingleSelection` | app.js:303-318 | with marking by key: none marked when no element has the key; at most one when keys are distinct; exactly one when keys are distinct and one element has the key |
| `Filters.CategoryFilter` | app.js:742-745 | the "all" tab shows every skill; any other tab shows exactly the skills whose `data-category` equals it |
| `Filters.BlankSearchShowsAll` | app.js:763-768 | an empty or all-white-space query shows every skill |
| `Filters.SearchTermOfLower` | app.js:764 | lower-casing the query leaves the search term unchanged |
| `Filters.SearchTermOfTrimmed` | app.js:764 | trimming the query leaves the search term unchanged |
| `Filters.SearchTermIsLower` | app.js:764 | the search term is already lower case |
| `Filters.SearchIgnoresCaseAndPadding` | app.js:763-768 | a query, its lower-cased form and its trimmed form show the same skills |
| `Filters.SearchIgnoresNameCase` | app.js:766-768 | the case of a skill's name does not affect whether it is shown |
| `Filters.SearchFindsInfix` | app.js:766-768 | a skill whose name contains the search term anywhere is shown |
| `Filters.ProjectFilter` | app.js:682-690 | with no technology selected every card shows; a card shows whenever its `data-tech` contains the selection as a substring; a card with no `data-tech` shows only when nothing is selected |
| `Notifications.NotificationIcon` | app.js:1568-1576 | the four types get their own distinct icons, and every other type gets the info icon |
| `Portfolio.ToggleTwice` | app.js:169-170 | toggling always gives "light" or "dark", changes a light or dark theme, and toggling twice restores the theme exactly when it was "light" or "dark" |
| `Portfolio.InitialTheme` | app.js:160-164 | a non-empty stored theme wins; otherwise the theme is "dark" exactly when the system prefers dark, else "light" |
| `Portfolio.SectionIdOf` | app.js:306-308 | `href?.substring(1)` is absent exactly when the `href` is, and otherwise is the `href` without its first character |
| `Portfolio.PortfolioApp.constructor` | app.js:7-20 | the default state (`home`, `industry`, `all`, every flag false) with the initial theme; no animation has run |
| `Portfolio.PortfolioApp.ShowNotification` | app.js:1522-1545 | the new banner replaces any shown one, so at most one exists and it bears the latest message |
| `Portfolio.PortfolioApp.HideNotification` | app.js:1557-1565 | once hidden, no banner is shown |
| `Portfolio.PortfolioApp.ToggleTheme` | app.js:169-181 | the theme flips light/dark and the new theme is stored and announced; nothing else changes |
| `Portfolio.PortfolioApp.HandleSystemThemeChange` | app.js:1717-1723 | a system theme change is followed only while no theme is stored |
| `Portfolio.PortfolioApp.ToggleMobileMenu` | app.js:386-387 | the menu flag flips; nothing else changes |
| `Portfolio.PortfolioApp.ToggleFab` | app.js:1080-1084 | the FAB flag flips; nothing else changes |
| `Portfolio.PortfolioApp.UpdateActiveNavLink` | app.js:303-318 | no-op when the section is already active; otherwise it becomes active and exactly the links pointing at it are marked, so at most one with distinct targets and exactly one when a link points at it |
| `Portfolio.PortfolioApp.HandleNavClick` | app.js:234-255 | when the target section exists, it becomes the active section and the mobile menu ends closed; if it was not already active exactly its links are marked, otherwise the links stay as they were; a missing target changes nothing |
| `Portfolio.PortfolioApp.HandleTabSwitch` | app.js:628-680 | no-op for the current tab; otherwise the tab becomes active, exactly its buttons and the panels with its id are marked, and exactly one panel is active when panel ids are distinct and one matches |
| `Portfolio.PortfolioApp.FilterSkills` | app.js:742-760 | every skill item is hidden exactly when the category filter does not show it |
| `Portfolio.PortfolioApp.HandleSkillFilter` | app.js:727-740 | no-op for the current filter; otherwise it becomes active, exactly its tabs are marked and the skills are filtered by it |
| `Portfolio.PortfolioApp.HandleSkillSearch` | app.js:763-783 | every skill item is hidden exactly when the search does not show it |
| `Portfolio.PortfolioApp.HideUnmatched` | app.js:766-782 | the loop over skill items hides exactly those not matching the computed term |
| `Portfolio.PortfolioApp.HandleSpecificAnimations` | app.js:481-493 | the counter and skill animations each start only if their flag was clear, and the flag is set; each has started at most once |
| `Portfolio.PortfolioApp.HandleInitialAnimations` | app.js:1488-1496 | the initial-viewport path starts the counters only if not yet animated, so across both paths they start at most once |
| `Portfolio.PortfolioApp.SetFormLoadingState` | app.js:1018-1035 | the in-flight flag is set to the argument and the inputs are disabled exactly while it is set |
| `Portfolio.PortfolioApp.SubmitForm` | app.js:833-855 | a submission while one is in flight is ignored and changes nothing; otherwise the trimmed values are validated and either the errors result, each field's error being its rule's message, together with the error banner, or the form enters its loading state with the trimmed data |
| `Portfolio.PortfolioApp.FinishSubmission` | app.js:857-871 | when the request settles the success or failure banner is shown and the loading state ends |
| `Portfolio.PortfolioApp.DownloadCV` | app.js:1129-1156 | a download hands one more CV file to the browser and shows the success banner; nothing else changes |
| `Portfolio.PortfolioApp.HandleKeydown` | app.js:1748-1777 | Escape closes the menu and the FAB and hides the banner; every other key, Ctrl/Cmd+D included, changes no state and downloads nothing |
| `Portfolio.PortfolioApp.HandleKeydownIntended` | app.js:1772-1775 | with the shortcut working, Ctrl/Cmd+D downloads the CV once and shows its banner; Escape and other keys behave as written |
| `Portfolio.PortfolioApp.HandleResize` | app.js:1736-1746 | a width above 768 closes the mobile menu; any resize closes the FAB |
| `Portfolio.PortfolioApp.CloseMobileMenuOnClickOutside` | app.js:404-414 | a click outside both the menu and its toggle closes an open menu |
| `Portfolio.PortfolioApp.CloseFabOnClickOutside` | app.js:1073-1077 | a click outside the FAB closes it |
| `Portfolio.PortfolioApp.HandleFabAction` | app.js:1093-1111 | the theme option toggles the theme, the CV option downloads the CV once with its banner, any other option changes nothing else; every option then toggles the FAB |
| `Portfolio.PortfolioApp.ClickCvOption` | app.js:1067-1078 | a click on the FAB's CV option runs `handleFABAction` and the download listener, so two CV files are handed over; the banner is the download banner and the FAB flag flips; the click then reaches the document listeners, which close an open mobile menu when the page has one and leave the FAB as set |
| `Portfolio.ToggleTwiceRestores` | app.js:169-171 | two theme toggles, two menu toggles and two FAB toggles restore a light or dark state, except that the stored theme ends as the original theme and the banner announces the switch back to it |

## Left out

- The DOM itself is not modelled. This covers element lookups, styles, `innerHTML`, `aria-*`,
  the form reset and the per-field error markup. Only the state the handlers keep or gate is
  modelled: the `active`/`hidden` classes, the inputs' `disabled` flag and the banner.
- `setTimeout`, `requestAnimationFrame` and `IntersectionObserver` sequencing are not modelled.
  A class removed or added after a delay is modelled as its settled value. This covers panels
  hidden after 300 ms and skill items hidden after 200 or 300 ms. Auto-dismiss of a banner after
  its duration is not modelled. Which element the observer reports, and whether an element is in
  the viewport, are method parameters.
- The floating-point animations are not modelled: the custom cursor, `smoothScrollTo` easing,
  counter easing, skill-bar animation, scroll progress, typing effect and staggered reveals.
  `animateCounters` and `animateSkills` are modelled only by how often they are started.
- `localStorage` and `matchMedia` are browser APIs. Storage is one optional string slot, and the
  system preference is a parameter.
- The CV text (`generateCVContent`) is a constant template with a locale-formatted date, and its
  Blob/object-URL download is a browser API. A download is modelled only as a count of the files
  handed to the browser, beside its banner.
- The global `error` listener (app.js:1863-1873) is not modelled. In a browser without a bundler
  it is never registered: `process?.env?.NODE_ENV` (app.js:1859) throws a ReferenceError when
  `process` is undeclared, which ends the script before that listener is added. Where it is
  registered, the throw of Ctrl/Cmd+D would also show "Something went wrong…".
- Ctrl/Cmd+K only focuses the search box and changes no modelled state. The `contact` FAB action
  only scrolls.
- The notification markup, style injection and auto-dismiss timer are not modelled. Only the
  single-banner slot and the icon lookup are.
- `debounce`/`throttle`, the global error/load handlers, the service worker and the 2-second
  `simulateFormSubmission` are timer-based or I/O. The request's outcome is the parameter of
  `FinishSubmission`.
- `isLoaded` and `scrollY` in the state record are written only by the loading sequence and the
  scroll handler. Both are timer- and scroll-driven and neither gates a modelled decision.
- The navbar background switch and the back-to-top button (`scrollY > 50`, `> 300`) are not
  modelled. They change only styles.
- The `active` classes the markup starts with are not known to the model. The flag arrays start
  all clear, and the theorems are about the flags a handler writes.
- Lengths are counted in Dafny characters (Unicode scalar values). JavaScript's `length` counts
  UTF-16 code units, so characters outside the Basic Multilingual Plane count twice there. The
  2/10/500 limits can therefore differ for text with emoji.
- `Text.ToLower`: covers only ASCII letters. The full Unicode case mapping of `toLowerCase` is
  not modelled. Other characters are kept as they are.
- `Notifications.NotificationIcon`: `icons[type]` on an inherited property name such as
  `constructor` is not modelled; callers pass only the four types.
- `Portfolio.PortfolioApp.FilterSkills` and `Portfolio.PortfolioApp.HandleSkillSearch`: the
  `hidden` flags are the settled values of one call, valid only when no earlier call's hide timer
  is still pending. Those timers add `hidden` after 300 or 200 ms without re-checking
  (app.js:756-757, 779-780), unlike the panel timer (app.js:673-674). So a search for "z"
  cleared within 200 ms leaves the items not matching "z" hidden under an empty search, which
  the model does not capture.

## Findings

| source | as written | input that shows it | evidently intended | confidence | as-written member | corrected member |
|---|---|---|---|---|---|---|
| app.js:1772-1775, 1132-1135 | Ctrl/Cmd+D calls `handleDownloadCV(e)` from the `document` keydown listener, so `e.currentTarget` is `document`, and `button.style.transform = …` throws a TypeError because `document.style` is undefined | pressing Ctrl+D anywhere on the page: no CV is downloaded and no banner is shown | the shortcut downloads the CV and shows "📄 CV downloaded successfully!" | high; not executed | `Portfolio.PortfolioApp.HandleKeydown` | `Portfolio.PortfolioApp.HandleKeydownIntended` |
| app.js:1067-1070, 1117-1127 | the FAB's CV option gets the `handleFABAction` listener and, because it matches `[data-action="cv"]`, the `handleDownloadCV` listener of `setupDownloadCV` too | one click on the FAB's CV option: the CV is downloaded twice | one click downloads the CV once | high; not executed | `Portfolio.PortfolioApp.ClickCvOption` | `Portfolio.PortfolioApp.HandleFabAction` |
