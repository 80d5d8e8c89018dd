/**
 * The site's navigation bar: whether the page is scrolled past the trigger
 * offset, whether the mobile menu is open, the scroll listener's lifetime,
 * and the class names chosen from those two flags.
 */
module Navigation {
  import opened TokenList
  import Styles

  /** `SCROLL.TRIGGER_OFFSET`, in pixels. */
  const TriggerOffset: real := 50.0

  /** `navigationClass`: the base class and then the scrolled or the transparent one. */
  function NavigationClass(isScrolled: bool): string {
    Styles.Navigation + " " + (if isScrolled then Styles.NavigationScrolled else Styles.NavigationTransparent)
  }

  /** `mobileMenuClass`: the base class and then the open or the closed one. */
  function MobileMenuClass(isOpen: bool): string {
    Styles.MobileMenu + " " + (if isOpen then Styles.MobileMenuOpen else Styles.MobileMenuClosed)
  }

  /** A `${a} ${b}` class string of two tokens reads back as those two tokens, with no stray space. */
  lemma PairWords(a: string, b: string)
    requires IsToken(a) && IsToken(b)
    ensures Words(a + " " + b) == [a, b] && WellFormed(a + " " + b)
  {
    BuildTwo(a, b);
    ClassListOfTwo(a, b);
    WordsOfToken(b);
    WellFormedToken(b);
  }

  /**
   * The bar carries the base class and exactly one state class: the scrolled
   * one exactly when the page is scrolled, the transparent one exactly when
   * it is not.
   */
  lemma NavigationClassWords(isScrolled: bool)
    ensures Words(NavigationClass(isScrolled)) ==
      [Styles.Navigation, if isScrolled then Styles.NavigationScrolled else Styles.NavigationTransparent]
    ensures Styles.NavigationScrolled in Words(NavigationClass(isScrolled)) <==> isScrolled
    ensures Styles.NavigationTransparent in Words(NavigationClass(isScrolled)) <==> !isScrolled
    ensures WellFormed(NavigationClass(isScrolled))
  {
    Styles.NavigationTokens();
    PairWords(Styles.Navigation, if isScrolled then Styles.NavigationScrolled else Styles.NavigationTransparent);
  }

  /**
   * The mobile menu carries the base class and exactly one state class: the
   * open one exactly when the menu is open, the closed one exactly when it
   * is not.
   */
  lemma MobileMenuClassWords(isOpen: bool)
    ensures Words(MobileMenuClass(isOpen)) ==
      [Styles.MobileMenu, if isOpen then Styles.MobileMenuOpen else Styles.MobileMenuClosed]
    ensures Styles.MobileMenuOpen in Words(MobileMenuClass(isOpen)) <==> isOpen
    ensures Styles.MobileMenuClosed in Words(MobileMenuClass(isOpen)) <==> !isOpen
    ensures WellFormed(MobileMenuClass(isOpen))
  {
    Styles.NavigationTokens();
    PairWords(Styles.MobileMenu, if isOpen then Styles.MobileMenuOpen else Styles.MobileMenuClosed);
  }

  /** The component's state, and whether its `scroll` listener is registered on the window. */
  class NavigationBar {
    var isScrolled: bool
    var isMobileMenuOpen: bool
    var listening: bool

    /** The first render: not scrolled, menu closed, no listener yet. */
    constructor()
      ensures !isScrolled && !isMobileMenuOpen && !listening
    {
      isScrolled := false;
      isMobileMenuOpen := false;
      listening := false;
    }

    /** The mount effect registers the `scroll` listener. */
    method Mount()
      modifies this
      ensures listening
      ensures isScrolled == old(isScrolled) && isMobileMenuOpen == old(isMobileMenuOpen)
    {
      listening := true;
    }

    /**
     * `handleScroll`, run by the window while the listener is registered:
     * afterwards the bar counts as scrolled exactly when `scrollY` is
     * strictly beyond the trigger offset; the menu is left alone.
     */
    method OnScroll(scrollY: real)
      requires listening
      modifies this
      ensures isScrolled <==> scrollY > TriggerOffset
      ensures isMobileMenuOpen == old(isMobileMenuOpen) && listening
    {
      isScrolled := scrollY > TriggerOffset;
    }

    /** The menu button flips the menu; nothing else changes. */
    method ToggleMenu()
      modifies this
      ensures isMobileMenuOpen == !old(isMobileMenuOpen)
      ensures isScrolled == old(isScrolled) && listening == old(listening)
    {
      isMobileMenuOpen := !isMobileMenuOpen;
    }

    /**
     * `scrollToSection`, given whether `document.getElementById` finds the
     * section: if it does, the page scrolls there and the menu closes; if it
     * does not, no state changes.
     */
    method ScrollToSection(sectionExists: bool)
      modifies this
      ensures isMobileMenuOpen == (old(isMobileMenuOpen) && !sectionExists)
      ensures isScrolled == old(isScrolled) && listening == old(listening)
    {
      if sectionExists {
        isMobileMenuOpen := false;
      }
    }

    /** The effect's cleanup removes the listener, leaving both flags as they were. */
    method Unmount()
      modifies this
      ensures !listening
      ensures isScrolled == old(isScrolled) && isMobileMenuOpen == old(isMobileMenuOpen)
    {
      listening := false;
    }
  }
}
