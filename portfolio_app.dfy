/**
 * The page controller `PortfolioApp` with the DOM taken away: its `state`
 * record, the `portfolio-theme` slot of local storage, the one notification
 * banner, and the `active`/`hidden` classes its handlers write on the nav
 * links, project tab buttons and panels, skill filter tabs and skill items.
 * Each handler is a method; browser inputs (the clicked element's
 * attributes, the window width, the key pressed, whether an element is in
 * view) are its parameters.
 */
module Portfolio {
  import opened Wrappers
  import opened Selection
  import opened Filters
  import opened FormValidation

  // ---------------------------------------------------------------------
  // Theme.
  // ---------------------------------------------------------------------

  /** `theme === 'light' ? 'dark' : 'light'`. */
  function Toggled(theme: string): string {
    if theme == "light" then "dark" else "light"
  }

  /**
   * Toggling always yields one of the two themes, and toggling twice
   * restores the theme exactly when it was one of them (a stored value such
   * as "" never reaches `state.theme`, but any other string would).
   */
  lemma ToggleTwice(theme: string)
    ensures Toggled(theme) == "light" || Toggled(theme) == "dark"
    ensures Toggled(theme) != theme || (theme != "light" && theme != "dark")
    ensures Toggled(Toggled(theme)) == theme <==> theme == "light" || theme == "dark"
  {
  }

  /** `initializeTheme`: the stored preference if non-empty, otherwise the system's. */
  function InitialTheme(saved: Option<string>, systemPrefersDark: bool): (theme: string)
    ensures saved.Some? && saved.value != "" ==> theme == saved.value
    ensures (saved.None? || saved.value == "") ==> (theme == "dark" <==> systemPrefersDark)
    ensures (saved.None? || saved.value == "") ==> (theme == "light" || theme == "dark")
  {
    if saved.Some? && saved.value != "" then saved.value
    else if systemPrefersDark then "dark" else "light"
  }

  // ---------------------------------------------------------------------
  // The page the controller works on.
  // ---------------------------------------------------------------------

  /** `href?.substring(1)`: the section id a nav link points at (`#about` gives `about`). */
  function SectionIdOf(href: Option<string>): (id: Option<string>)
    ensures href.None? <==> id.None?
    ensures href.Some? && |href.value| > 0 ==> href.value == [href.value[0]] + id.value
    ensures href == Some("") ==> id == Some("")
  {
    match href
    case None => None
    case Some(h) => Some(if |h| > 0 then h[1..] else "")
  }

  function SectionIds(hrefs: seq<Option<string>>): (ids: seq<Option<string>>)
    ensures |ids| == |hrefs|
    ensures forall i :: 0 <= i < |hrefs| ==> ids[i] == SectionIdOf(hrefs[i])
  {
    if hrefs == [] then [] else [SectionIdOf(hrefs[0])] + SectionIds(hrefs[1..])
  }

  function PanelKeys(ids: seq<string>): (keys: seq<Option<string>>)
    ensures |keys| == |ids|
    ensures forall i :: 0 <= i < |ids| ==> keys[i] == Some(ids[i])
  {
    if ids == [] then [] else [Some(ids[0])] + PanelKeys(ids[1..])
  }

  /** A `.skill-item`: its `data-category` and the text of its `h4`. */
  datatype Skill = Skill(category: Option<string>, name: Option<string>)

  /** The elements the controller caches in `setupDOM`, by the attributes it reads from them. */
  datatype Page = Page(
    navHrefs: seq<Option<string>>,      // `href` of each `.nav-link`
    tabButtons: seq<Option<string>>,    // `data-tab` of each `.tab-btn`
    tabPanels: seq<string>,             // `id` of each `.tab-panel`
    filterTabs: seq<Option<string>>,    // `data-filter` of each `.filter-tab`
    skills: seq<Skill>)                 // each `.skill-item`

  datatype Notification = Notification(message: string, kind: string)

  /** `this.state`, with the stored theme and the shown notification beside it. */
  datatype UIState = UIState(
    theme: string,
    storedTheme: Option<string>,
    isMobileMenuOpen: bool,
    activeSection: string,
    activeProjectTab: Option<string>,
    activeSkillFilter: Option<string>,
    countersAnimated: bool,
    skillsAnimated: bool,
    isFormSubmitting: bool,
    isFabOpen: bool,
    notification: Option<Notification>,
    cvDownloads: nat)

  /** What `handleFormSubmit` did with a submission. */
  datatype SubmitOutcome =
    | Ignored                              // a submission is already in flight
    | Rejected(errors: map<Field, string>) // validation failed
    | Sending(data: FormData)              // validated; the simulated request is under way

  const FixErrorsMessage := "Please fix the errors below"
  const SentMessage := "\U{1F389} Message sent successfully! I'll get back to you soon."
  const FailedMessage := "\U{274C} Failed to send message. Please try again."
  const CvDownloadedMessage := "\U{1F4C4} CV downloaded successfully!"

  /** Above this `window.innerWidth` the mobile menu is closed on resize. */
  const MobileBreakpoint := 768

  class PortfolioApp {
    var theme: string
    var storedTheme: Option<string>   // localStorage 'portfolio-theme'
    var isMobileMenuOpen: bool
    var activeSection: string
    var activeProjectTab: Option<string>
    var activeSkillFilter: Option<string>
    var countersAnimated: bool
    var skillsAnimated: bool
    var isFormSubmitting: bool
    var isFabOpen: bool
    var formInputsDisabled: bool      // `disabled` of every `.form-control`
    var notification: Option<Notification>
    var cvDownloads: nat              // CV files handed to the browser to save

    /** How many times `animateCounters` and `animateSkills` have been started. */
    ghost var counterRuns: nat
    ghost var skillRuns: nat

    const page: Page
    const navLinkActive: array<bool>
    const tabButtonActive: array<bool>
    const tabPanelActive: array<bool>
    const filterTabActive: array<bool>
    const skillHidden: array<bool>

    ghost predicate Valid()
      reads this
    {
      && navLinkActive.Length == |page.navHrefs|
      && tabButtonActive.Length == |page.tabButtons|
      && tabPanelActive.Length == |page.tabPanels|
      && filterTabActive.Length == |page.filterTabs|
      && skillHidden.Length == |page.skills|
      && navLinkActive != tabButtonActive && navLinkActive != tabPanelActive
      && navLinkActive != filterTabActive && navLinkActive != skillHidden
      && tabButtonActive != tabPanelActive && tabButtonActive != filterTabActive
      && tabButtonActive != skillHidden && tabPanelActive != filterTabActive
      && tabPanelActive != skillHidden && filterTabActive != skillHidden
      // the one-shot animations run exactly when their flag is set
      && counterRuns == (if countersAnimated then 1 else 0)
      && skillRuns == (if skillsAnimated then 1 else 0)
      && formInputsDisabled == isFormSubmitting
    }

    function State(): UIState
      reads this
    {
      UIState(theme, storedTheme, isMobileMenuOpen, activeSection, activeProjectTab,
              activeSkillFilter, countersAnimated, skillsAnimated, isFormSubmitting,
              isFabOpen, notification, cvDownloads)
    }

    /**
     * `constructor()` followed by `initializeTheme()`: the default state,
     * with the theme taken from storage or from the system preference.
     */
    constructor (page: Page, saved: Option<string>, systemPrefersDark: bool)
      ensures Valid()
      ensures this.page == page
      ensures fresh(navLinkActive) && fresh(tabButtonActive) && fresh(tabPanelActive)
      ensures fresh(filterTabActive) && fresh(skillHidden)
      ensures State() == UIState(InitialTheme(saved, systemPrefersDark), saved, false, "home",
                                 Some("industry"), Some("all"), false, false, false, false, None, 0)
      ensures counterRuns == 0 && skillRuns == 0
    {
      this.page := page;
      theme := InitialTheme(saved, systemPrefersDark);
      storedTheme := saved;
      isMobileMenuOpen := false;
      activeSection := "home";
      activeProjectTab := Some("industry");
      activeSkillFilter := Some("all");
      countersAnimated := false;
      skillsAnimated := false;
      isFormSubmitting := false;
      isFabOpen := false;
      formInputsDisabled := false;
      notification := None;
      cvDownloads := 0;
      counterRuns := 0;
      skillRuns := 0;
      navLinkActive := new bool[|page.navHrefs|];
      tabButtonActive := new bool[|page.tabButtons|];
      tabPanelActive := new bool[|page.tabPanels|];
      filterTabActive := new bool[|page.filterTabs|];
      skillHidden := new bool[|page.skills|];
    }

    /** `showNotification`: the new banner replaces whichever one was shown. */
    method ShowNotification(message: string, kind: string)
      modifies this
      requires Valid()
      ensures Valid()
      ensures State() == old(State()).(notification := Some(Notification(message, kind)))
      ensures counterRuns == old(counterRuns) && skillRuns == old(skillRuns)
      ensures formInputsDisabled == old(formInputsDisabled)
    {
      notification := Some(Notification(message, kind));
    }

    /** `hideNotification` of the shown banner, once its fade-out has finished. */
    method HideNotification()
      modifies this
      requires Valid()
      ensures Valid()
      ensures State() == old(State()).(notification := None)
      ensures counterRuns == old(counterRuns) && skillRuns == old(skillRuns)
      ensures formInputsDisabled == old(formInputsDisabled)
    {
      notification := None;
    }

    /** `toggleTheme`: flips light/dark, stores the new theme and announces it. */
    method ToggleTheme()
      modifies this
      requires Valid()
      ensures Valid()
      ensures theme == Toggled(old(theme)) && storedTheme == Some(theme)
      ensures State() == old(State()).(theme := theme, storedTheme := Some(theme),
                                       notification := Some(Notification("Switched to " + theme + " mode", "info")))
      ensures counterRuns == old(counterRuns) && skillRuns == old(skillRuns)
      ensures formInputsDisabled == old(formInputsDisabled)
    {
      theme := Toggled(theme);
      storedTheme := Some(theme);
      ShowNotification("Switched to " + theme + " mode", "info");
    }

    /**
     * The `prefers-color-scheme` change listener: follows the system only
     * while no theme is stored.
     */
    method HandleSystemThemeChange(prefersDark: bool)
      modifies this
      requires Valid()
      ensures Valid()
      ensures storedTheme.None? || storedTheme == Some("") ==>
                State() == old(State()).(theme := if prefersDark then "dark" else "light")
      ensures storedTheme.Some? && storedTheme != Some("") ==> State() == old(State())
      ensures counterRuns == old(counterRuns) && skillRuns == old(skillRuns)
      ensures formInputsDisabled == old(formInputsDisabled)
    {
      if storedTheme.None? || storedTheme == Some("") {
        theme := if prefersDark then "dark" else "light";
      }
    }

    /** `toggleMobileMenu`. */
    method ToggleMobileMenu()
      modifies this
      requires Valid()
      ensures Valid()
      ensures State() == old(State()).(isMobileMenuOpen := !old(isMobileMenuOpen))
      ensures counterRuns == old(counterRuns) && skillRuns == old(skillRuns)
      ensures formInputsDisabled == old(formInputsDisabled)
    {
      isMobileMenuOpen := !isMobileMenuOpen;
    }

    /** `toggleFAB`. */
    method ToggleFab()
      modifies this
      requires Valid()
      ensures Valid()
      ensures State() == old(State()).(isFabOpen := !old(isFabOpen))
      ensures counterRuns == old(counterRuns) && skillRuns == old(skillRuns)
      ensures formInputsDisabled == old(formInputsDisabled)
    {
      isFabOpen := !isFabOpen;
    }

    /**
     * `updateActiveNavLink(section)`: nothing happens when `section` is
     * already active; otherwise it becomes the active section and exactly the
     * links pointing at it are marked, so with distinct link targets at most
     * one link is marked, and exactly one when some link points at it.
     */
    method UpdateActiveNavLink(section: string)
      modifies this, navLinkActive
      requires Valid()
      ensures Valid()
      ensures old(activeSection) == section ==>
                State() == old(State()) && navLinkActive[..] == old(navLinkActive[..])
      ensures old(activeSection) != section ==>
                State() == old(State()).(activeSection := section)
                && MarksExactly(navLinkActive[..], SectionIds(page.navHrefs), Some(section))
      ensures old(activeSection) != section && Distinct(SectionIds(page.navHrefs)) ==>
                CountSet(navLinkActive[..]) <= 1
      ensures (old(activeSection) != section && Distinct(SectionIds(page.navHrefs))
               && Some(section) in SectionIds(page.navHrefs)) ==> CountSet(navLinkActive[..]) == 1
      ensures counterRuns == old(counterRuns) && skillRuns == old(skillRuns)
      ensures formInputsDisabled == old(formInputsDisabled)
    {
      if activeSection == section {
        return;
      }
      activeSection := section;
      MarkSelected(navLinkActive, SectionIds(page.navHrefs), Some(section));
      SingleSelection(navLinkActive[..], SectionIds(page.navHrefs), Some(section));
    }

    /**
     * `handleNavClick` on a link whose `href` is `targetId`: when the target
     * section exists, it becomes the active one and an open mobile menu is
     * closed.
     */
    method HandleNavClick(targetId: string, targetExists: bool)
      modifies this, navLinkActive
      requires Valid()
      ensures Valid()
      ensures !targetExists ==> State() == old(State()) && navLinkActive[..] == old(navLinkActive[..])
      ensures targetExists ==> activeSection == SectionIdOf(Some(targetId)).value && !isMobileMenuOpen
      ensures targetExists && old(activeSection) != activeSection ==>
                MarksExactly(navLinkActive[..], SectionIds(page.navHrefs), Some(activeSection))
      ensures targetExists && old(activeSection) == activeSection ==>
                navLinkActive[..] == old(navLinkActive[..])
      ensures targetExists ==> State() == old(State()).(activeSection := activeSection, isMobileMenuOpen := false)
      ensures counterRuns == old(counterRuns) && skillRuns == old(skillRuns)
      ensures formInputsDisabled == old(formInputsDisabled)
    {
      if targetExists {
        UpdateActiveNavLink(SectionIdOf(Some(targetId)).value);
        if isMobileMenuOpen {
          ToggleMobileMenu();
        }
      }
    }

    /**
     * `handleTabSwitch` on a button whose `data-tab` is `target`: nothing
     * happens when it is already the active tab; otherwise it becomes the
     * active tab, and exactly the buttons with that `data-tab` and the panels
     * with that `id` are marked active.
     */
    method HandleTabSwitch(target: Option<string>)
      modifies this, tabButtonActive, tabPanelActive
      requires Valid()
      ensures Valid()
      ensures old(activeProjectTab) == target ==>
                State() == old(State())
                && tabButtonActive[..] == old(tabButtonActive[..])
                && tabPanelActive[..] == old(tabPanelActive[..])
      ensures old(activeProjectTab) != target ==>
                State() == old(State()).(activeProjectTab := target)
                && MarksExactly(tabButtonActive[..], page.tabButtons, target)
                && MarksExactly(tabPanelActive[..], PanelKeys(page.tabPanels), target)
      ensures (old(activeProjectTab) != target && Distinct(page.tabPanels) && target.Some?
               && target.value in page.tabPanels) ==> CountSet(tabPanelActive[..]) == 1
      ensures counterRuns == old(counterRuns) && skillRuns == old(skillRuns)
      ensures formInputsDisabled == old(formInputsDisabled)
    {
      if target == activeProjectTab {
        return;
      }
      activeProjectTab := target;
      MarkSelected(tabButtonActive, page.tabButtons, target);
      MarkSelected(tabPanelActive, PanelKeys(page.tabPanels), target);
      if Distinct(page.tabPanels) && target.Some? && target.value in page.tabPanels {
        PanelKeysDistinct(page.tabPanels);
        SingleSelection(tabPanelActive[..], PanelKeys(page.tabPanels), target);
      }
    }

    /**
     * `filterSkills(filter)`: every skill item is hidden exactly when the
     * category filter does not show it.
     */
    method FilterSkills(filter: Option<string>)
      modifies skillHidden
      requires Valid()
      ensures forall i :: 0 <= i < |page.skills| ==>
                skillHidden[i] == !ShownByCategory(filter, page.skills[i].category)
    {
      var i := 0;
      while i < skillHidden.Length
        invariant 0 <= i <= skillHidden.Length
        invariant forall j :: 0 <= j < i ==> skillHidden[j] == !ShownByCategory(filter, page.skills[j].category)
      {
        skillHidden[i] := !ShownByCategory(filter, page.skills[i].category);
        i := i + 1;
      }
    }

    /**
     * `handleSkillFilter` on a tab whose `data-filter` is `filter`: nothing
     * happens when it is already the active filter; otherwise it becomes the
     * active filter, exactly the tabs with that `data-filter` are marked, and
     * the skills are filtered by it.
     */
    method HandleSkillFilter(filter: Option<string>)
      modifies this, filterTabActive, skillHidden
      requires Valid()
      ensures Valid()
      ensures old(activeSkillFilter) == filter ==>
                State() == old(State())
                && filterTabActive[..] == old(filterTabActive[..])
                && skillHidden[..] == old(skillHidden[..])
      ensures old(activeSkillFilter) != filter ==>
                State() == old(State()).(activeSkillFilter := filter)
                && MarksExactly(filterTabActive[..], page.filterTabs, filter)
                && forall i :: 0 <= i < |page.skills| ==>
                     skillHidden[i] == !ShownByCategory(filter, page.skills[i].category)
      ensures counterRuns == old(counterRuns) && skillRuns == old(skillRuns)
      ensures formInputsDisabled == old(formInputsDisabled)
    {
      if filter == activeSkillFilter {
        return;
      }
      activeSkillFilter := filter;
      MarkSelected(filterTabActive, page.filterTabs, filter);
      FilterSkills(filter);
    }

    /**
     * `handleSkillSearch(query)`: every skill item is hidden exactly when the
     * search does not show it.
     */
    method HandleSkillSearch(query: string)
      modifies skillHidden
      requires Valid()
      ensures forall i :: 0 <= i < |page.skills| ==>
                skillHidden[i] == !ShownBySearch(page.skills[i].name, query)
    {
      HideUnmatched(SearchTerm(query));
    }

    /** The loop of `handleSkillSearch` over the skill items, for the computed search term. */
    method HideUnmatched(term: string)
      modifies skillHidden
      requires Valid()
      ensures forall i :: 0 <= i < |page.skills| ==>
                skillHidden[i] == !MatchesTerm(page.skills[i].name, term)
    {
      var i := 0;
      while i < skillHidden.Length
        invariant 0 <= i <= skillHidden.Length
        invariant forall j :: 0 <= j < i ==> skillHidden[j] == !MatchesTerm(page.skills[j].name, term)
      {
        skillHidden[i] := !MatchesTerm(page.skills[i].name, term);
        i := i + 1;
      }
    }

    /**
     * `handleSpecificAnimations` for an element that became visible, given
     * whether it lies in the hero and in the skills section: each of
     * `animateCounters` and `animateSkills` is started at most once per page.
     */
    method HandleSpecificAnimations(inHero: bool, inSkills: bool)
      modifies this
      requires Valid()
      ensures Valid()
      ensures State() == old(State()).(countersAnimated := old(countersAnimated) || inHero,
                                       skillsAnimated := old(skillsAnimated) || inSkills)
      ensures counterRuns <= 1 && skillRuns <= 1
      ensures counterRuns == old(counterRuns) + (if inHero && !old(countersAnimated) then 1 else 0)
      ensures skillRuns == old(skillRuns) + (if inSkills && !old(skillsAnimated) then 1 else 0)
      ensures formInputsDisabled == old(formInputsDisabled)
    {
      if inHero && !countersAnimated {
        counterRuns := counterRuns + 1;  // animateCounters is scheduled
        countersAnimated := true;
      }
      if inSkills && !skillsAnimated {
        skillRuns := skillRuns + 1;      // animateSkills is scheduled
        skillsAnimated := true;
      }
    }

    /**
     * The counter check of `handleInitialAnimations`: when the hero is in the
     * viewport and the counters have not run, they run now; never twice.
     */
    method HandleInitialAnimations(heroInViewport: bool)
      modifies this
      requires Valid()
      ensures Valid()
      ensures State() == old(State()).(countersAnimated := old(countersAnimated) || heroInViewport)
      ensures counterRuns <= 1 && skillRuns == old(skillRuns)
      ensures counterRuns == old(counterRuns) + (if heroInViewport && !old(countersAnimated) then 1 else 0)
      ensures formInputsDisabled == old(formInputsDisabled)
    {
      if heroInViewport && !countersAnimated {
        counterRuns := counterRuns + 1;  // animateCounters starts now
        countersAnimated := true;
      }
    }

    /** `setFormLoadingState(isLoading)`: the in-flight flag, mirrored by the inputs' `disabled`. */
    method SetFormLoadingState(isLoading: bool)
      modifies this
      requires Valid()
      ensures Valid()
      ensures State() == old(State()).(isFormSubmitting := isLoading)
      ensures formInputsDisabled == isLoading
      ensures counterRuns == old(counterRuns) && skillRuns == old(skillRuns)
    {
      isFormSubmitting := isLoading;
      formInputsDisabled := isLoading;
    }

    /**
     * `handleFormSubmit` up to its `await`: ignored while a submission is in
     * flight; otherwise the trimmed values are validated, and either the
     * errors are reported or the form enters its loading state.
     */
    method SubmitForm(raw: FormData) returns (outcome: SubmitOutcome)
      modifies this
      requires Valid()
      ensures Valid()
      ensures old(isFormSubmitting) ==> outcome == Ignored && State() == old(State())
      ensures !old(isFormSubmitting) ==> outcome != Ignored
      ensures outcome.Rejected? ==>
                outcome.errors != map[]
                && (forall f :: f in outcome.errors <==> FieldError(f, TrimForm(raw).Get(f)).Some?)
                && (forall f :: f in outcome.errors ==> outcome.errors[f] == FieldError(f, TrimForm(raw).Get(f)).value)
                && State() == old(State()).(notification := Some(Notification(FixErrorsMessage, "error")))
      ensures outcome.Sending? ==>
                outcome.data == TrimForm(raw)
                && (forall f :: FieldError(f, TrimForm(raw).Get(f)).None?)
                && State() == old(State()).(isFormSubmitting := true)
      ensures formInputsDisabled == isFormSubmitting
      ensures counterRuns == old(counterRuns) && skillRuns == old(skillRuns)
    {
      if isFormSubmitting {
        return Ignored;
      }
      var data := TrimForm(raw);
      var isValid, errors := ValidateForm(data);
      if !isValid {
        ShowNotification(FixErrorsMessage, "error");
        return Rejected(errors);
      }
      SetFormLoadingState(true);
      return Sending(data);
    }

    /**
     * The rest of `handleFormSubmit`, once the simulated request settles:
     * the success or failure banner, then (`finally`) the loading state ends.
     */
    method FinishSubmission(succeeded: bool)
      modifies this
      requires Valid()
      ensures Valid()
      ensures State() == old(State()).(isFormSubmitting := false,
                                       notification := Some(if succeeded then Notification(SentMessage, "success")
                                                            else Notification(FailedMessage, "error")))
      ensures !formInputsDisabled
      ensures counterRuns == old(counterRuns) && skillRuns == old(skillRuns)
    {
      if succeeded {
        ShowNotification(SentMessage, "success");
      } else {
        ShowNotification(FailedMessage, "error");
      }
      SetFormLoadingState(false);
    }

    /**
     * `handleDownloadCV` on a clicked button: the CV file is handed to the
     * browser and the success banner is shown.
     */
    method DownloadCV()
      modifies this
      requires Valid()
      ensures Valid()
      ensures State() == old(State()).(cvDownloads := old(cvDownloads) + 1,
                                       notification := Some(Notification(CvDownloadedMessage, "success")))
      ensures counterRuns == old(counterRuns) && skillRuns == old(skillRuns)
      ensures formInputsDisabled == old(formInputsDisabled)
    {
      cvDownloads := cvDownloads + 1;
      ShowNotification(CvDownloadedMessage, "success");
    }

    /**
     * `handleKeydown`, as written: Escape closes the mobile menu and the FAB
     * and hides the notification; Ctrl/Cmd+K only moves the focus. Ctrl/Cmd+D
     * calls `handleDownloadCV` with the document as the event's current
     * target, whose missing `style` makes it throw before the download and
     * before its banner, so that key changes no state either.
     */
    method HandleKeydown(key: string, ctrlOrMeta: bool)
      modifies this
      requires Valid()
      ensures Valid()
      ensures key == "Escape" ==>
                State() == old(State()).(isMobileMenuOpen := false, isFabOpen := false, notification := None)
      ensures key != "Escape" ==> State() == old(State())
      ensures ctrlOrMeta && key == "d" ==> cvDownloads == old(cvDownloads)
      ensures counterRuns == old(counterRuns) && skillRuns == old(skillRuns)
      ensures formInputsDisabled == old(formInputsDisabled)
    {
      if key == "Escape" {
        if isMobileMenuOpen {
          ToggleMobileMenu();
        }
        if isFabOpen {
          ToggleFab();
        }
        if notification.Some? {
          HideNotification();
        }
      }
      // Ctrl/Cmd+D: handleDownloadCV throws on its first write, to the document's style.
    }

    /**
     * `handleKeydown` as evidently intended: Ctrl/Cmd+D downloads the CV and
     * announces it, like every download button does.
     */
    method HandleKeydownIntended(key: string, ctrlOrMeta: bool)
      modifies this
      requires Valid()
      ensures Valid()
      ensures key == "Escape" ==>
                State() == old(State()).(isMobileMenuOpen := false, isFabOpen := false, notification := None)
      ensures ctrlOrMeta && key == "d" ==>
                State() == old(State()).(cvDownloads := old(cvDownloads) + 1,
                                         notification := Some(Notification(CvDownloadedMessage, "success")))
      ensures key != "Escape" && !(ctrlOrMeta && key == "d") ==> State() == old(State())
      ensures counterRuns == old(counterRuns) && skillRuns == old(skillRuns)
      ensures formInputsDisabled == old(formInputsDisabled)
    {
      HandleKeydown(key, ctrlOrMeta);
      if ctrlOrMeta && key == "d" {
        DownloadCV();
      }
    }

    /**
     * `handleResize`: a window wider than 768 pixels closes the mobile menu,
     * and any resize closes the FAB.
     */
    method HandleResize(innerWidth: int)
      modifies this
      requires Valid()
      ensures Valid()
      ensures State() == old(State()).(isMobileMenuOpen := old(isMobileMenuOpen) && innerWidth <= MobileBreakpoint,
                                       isFabOpen := false)
      ensures counterRuns == old(counterRuns) && skillRuns == old(skillRuns)
      ensures formInputsDisabled == old(formInputsDisabled)
    {
      if innerWidth > MobileBreakpoint && isMobileMenuOpen {
        ToggleMobileMenu();
      }
      if isFabOpen {
        ToggleFab();
      }
    }

    /**
     * `closeMobileMenuOnClickOutside`: a click outside both the menu and its
     * toggle closes an open menu (when the page has a menu at all).
     */
    method CloseMobileMenuOnClickOutside(hasNavMenu: bool, inNavMenu: bool, inMobileToggle: bool)
      modifies this
      requires Valid()
      ensures Valid()
      ensures State() == old(State()).(isMobileMenuOpen :=
                old(isMobileMenuOpen) && !(hasNavMenu && !inNavMenu && !inMobileToggle))
      ensures counterRuns == old(counterRuns) && skillRuns == old(skillRuns)
      ensures formInputsDisabled == old(formInputsDisabled)
    {
      if isMobileMenuOpen && hasNavMenu && !inNavMenu && !inMobileToggle {
        ToggleMobileMenu();
      }
    }

    /** The document click listener of the FAB: a click outside it closes it. */
    method CloseFabOnClickOutside(inFabContainer: bool)
      modifies this
      requires Valid()
      ensures Valid()
      ensures State() == old(State()).(isFabOpen := old(isFabOpen) && inFabContainer)
      ensures counterRuns == old(counterRuns) && skillRuns == old(skillRuns)
      ensures formInputsDisabled == old(formInputsDisabled)
    {
      if !inFabContainer && isFabOpen {
        ToggleFab();
      }
    }

    /**
     * `handleFABAction` for an option whose `data-action` is `action`: the
     * theme option toggles the theme, the CV option downloads the CV (the
     * contact option only scrolls); every option then toggles the FAB.
     */
    method HandleFabAction(action: Option<string>)
      modifies this
      requires Valid()
      ensures Valid()
      ensures action == Some("theme") ==>
                State() == old(State()).(theme := Toggled(old(theme)), storedTheme := Some(Toggled(old(theme))),
                                         notification := Some(Notification("Switched to " + Toggled(old(theme)) + " mode", "info")),
                                         isFabOpen := !old(isFabOpen))
      ensures action == Some("cv") ==>
                State() == old(State()).(cvDownloads := old(cvDownloads) + 1,
                                         notification := Some(Notification(CvDownloadedMessage, "success")),
                                         isFabOpen := !old(isFabOpen))
      ensures action != Some("theme") && action != Some("cv") ==>
                State() == old(State()).(isFabOpen := !old(isFabOpen))
      ensures counterRuns == old(counterRuns) && skillRuns == old(skillRuns)
      ensures formInputsDisabled == old(formInputsDisabled)
    {
      if action == Some("theme") {
        ToggleTheme();
      } else if action == Some("cv") {
        DownloadCV();
      }
      ToggleFab();
    }

    /**
     * A click on the FAB's CV option, as written: the option carries
     * `data-action="cv"`, so besides `handleFABAction` (registered first) the
     * listener of `setupDownloadCV` runs too, and the CV is downloaded twice.
     * Nothing stops the click, so it then reaches the two document listeners:
     * the option lies outside the nav menu and its toggle, which closes an
     * open menu when the page has one, and inside the FAB container, which
     * leaves the FAB as `handleFABAction` set it.
     */
    method ClickCvOption(hasNavMenu: bool)
      modifies this
      requires Valid()
      ensures Valid()
      ensures cvDownloads == old(cvDownloads) + 2
      ensures State() == old(State()).(cvDownloads := old(cvDownloads) + 2,
                                       notification := Some(Notification(CvDownloadedMessage, "success")),
                                       isFabOpen := !old(isFabOpen),
                                       isMobileMenuOpen := old(isMobileMenuOpen) && !hasNavMenu)
      ensures counterRuns == old(counterRuns) && skillRuns == old(skillRuns)
      ensures formInputsDisabled == old(formInputsDisabled)
    {
      HandleFabAction(Some("cv"));
      DownloadCV();
      CloseMobileMenuOnClickOutside(hasNavMenu, false, false);
      CloseFabOnClickOutside(true);
    }
  }

  /** Distinct panel ids give distinct keys. */
  lemma PanelKeysDistinct(ids: seq<string>)
    requires Distinct(ids)
    ensures Distinct(PanelKeys(ids))
  {
  }

  /**
   * Two toggles of the theme, the menu and the FAB leave a light or dark app
   * as it was, except that the stored theme and the banner keep the second
   * toggle's writes: the original theme and its announcement.
   */
  method ToggleTwiceRestores(app: PortfolioApp)
    modifies app
    requires app.Valid() && (app.theme == "light" || app.theme == "dark")
    ensures app.Valid()
    ensures app.State() == old(app.State()).(storedTheme := Some(old(app.theme)),
                                             notification := Some(Notification("Switched to " + old(app.theme) + " mode", "info")))
  {
    app.ToggleTheme();
    app.ToggleTheme();
    ToggleTwice(old(app.theme));
    app.ToggleMobileMenu();
    app.ToggleMobileMenu();
    app.ToggleFab();
    app.ToggleFab();
  }
}
