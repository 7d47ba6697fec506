/**
 * The page state that the landing page's handlers change: the navbar's
 * "scrolled" class, the three mobile-menu flags, the toast notifications,
 * the contact form's fields, and the gallery lightboxes with their Escape
 * handlers and the body's overflow style.
 */
module Page {
  import opened ContactForm
  import opened Notifications

  /** The body's overflow style while a lightbox is open, and after one closes. */
  const OverflowHidden: string := "hidden"
  const OverflowDefault: string := ""

  /** The scroll offset, in pixels, above which the navbar is "scrolled". */
  const ScrollThreshold: real := 50.0

  /** The toast a submission shows: green exactly when it is accepted, red on
      every error, never the default gold. */
  lemma SubmitToastTint(o: Outcome)
    ensures TintOf(Variant(o)) == (if o == Ok then Green else Red)
  {
  }

  class LandingPage {
    /** navbar has the class 'scrolled' */
    var scrolled: bool

    /** navToggle has 'active', navMenu has 'active', body has 'menu-open' */
    var toggleActive: bool
    var menuActive: bool
    var bodyMenuOpen: bool

    /** the toasts in the document, in document order */
    var toasts: seq<Notification>
    var nextToastId: nat

    /** the contact form's current values, and the values it resets to */
    var fields: FormData
    const defaults: FormData

    /** the lightbox overlays in the document */
    var lightboxes: set<nat>
    /** the lightboxes whose Escape handler is registered on the document */
    var escapeHandlers: set<nat>
    var nextLightboxId: nat
    /** document.body.style.overflow */
    var bodyOverflow: string

    /** What every sequence of handler runs keeps true from page load on. */
    ghost predicate Valid()
      reads this
    {
      && toggleActive == menuActive == bodyMenuOpen
      && |toasts| <= 1
      && (forall n | n in toasts :: n.id < nextToastId)
      && lightboxes <= escapeHandlers
      && (forall id | id in escapeHandlers :: id < nextLightboxId)
    }

    /** The page as loaded: no class set, no toast, no lightbox, and the
        form holding its default values. */
    constructor (defaults: FormData)
      ensures Valid()
      ensures !scrolled && !toggleActive && !menuActive && !bodyMenuOpen
      ensures toasts == [] && lightboxes == {} && escapeHandlers == {}
      ensures bodyOverflow == OverflowDefault
      ensures this.defaults == defaults && fields == defaults
    {
      scrolled := false;
      toggleActive, menuActive, bodyMenuOpen := false, false, false;
      toasts, nextToastId := [], 0;
      this.defaults := defaults;
      fields := defaults;
      lightboxes, escapeHandlers, nextLightboxId := {}, {}, 0;
      bodyOverflow := OverflowDefault;
    }

    /** The scroll handler: the class follows the current offset alone, so
        running it again at the same offset changes nothing. */
    method HandleNavbarScroll(scrollY: real)
      requires Valid()
      modifies this`scrolled
      ensures Valid()
      ensures scrolled <==> scrollY > ScrollThreshold
    {
      if scrollY > ScrollThreshold {
        scrolled := true;
      } else {
        scrolled := false;
      }
    }

    /** The toggle button: flips all three flags, so they stay in lockstep. */
    method ToggleMobileMenu()
      requires Valid()
      modifies this`toggleActive, this`menuActive, this`bodyMenuOpen
      ensures Valid()
      ensures toggleActive == !old(toggleActive)
      ensures menuActive == !old(menuActive)
      ensures bodyMenuOpen == !old(bodyMenuOpen)
    {
      toggleActive := !toggleActive;
      menuActive := !menuActive;
      bodyMenuOpen := !bodyMenuOpen;
    }

    /** A click on a navigation link: closes the menu whatever its state. */
    method CloseMobileMenu()
      requires Valid()
      modifies this`toggleActive, this`menuActive, this`bodyMenuOpen
      ensures Valid()
      ensures !toggleActive && !menuActive && !bodyMenuOpen
    {
      toggleActive := false;
      menuActive := false;
      bodyMenuOpen := false;
    }

    /** Shows a toast: the one present is removed first, so exactly one is
        present afterwards. */
    method ShowNotification(message: string, variant: string) returns (n: Notification)
      requires Valid()
      modifies this`toasts, this`nextToastId
      ensures Valid()
      ensures n == Notification(old(nextToastId), message, variant)
      ensures nextToastId == old(nextToastId) + 1
      ensures toasts == AfterShow(old(toasts), n)
      ensures toasts == [n]
    {
      n := Notification(nextToastId, message, variant);
      nextToastId := nextToastId + 1;
      toasts := AfterShow(toasts, n);
    }

    /** The removal that ends a toast's slide-out, after its close button is
        clicked or its display time runs out; a toast already gone stays gone. */
    method DismissNotification(id: nat)
      requires Valid()
      modifies this`toasts
      ensures Valid()
      ensures toasts == AfterDismiss(old(toasts), id)
      ensures forall m | m in toasts :: m.id != id
    {
      toasts := AfterDismiss(toasts, id);
    }

    /** The visitor types a value into one of the form's fields. */
    method EnterField(field: string, value: string)
      requires Valid()
      requires field in fields
      modifies this`fields
      ensures Valid()
      ensures fields == old(fields)[field := value]
    {
      fields := fields[field := value];
    }

    /** The submit handler: validates, shows the outcome's message, and
        resets the form only when the submission is accepted. */
    method SubmitContactForm() returns (o: Outcome)
      requires Valid()
      modifies this`fields, this`toasts, this`nextToastId
      ensures Valid()
      ensures o == Validate(old(fields))
      ensures toasts == [Notification(old(nextToastId), Message(o), Variant(o))]
      ensures o == Ok ==> fields == defaults
      ensures o != Ok ==> fields == old(fields)
    {
      o := Validate(fields);
      var _ := ShowNotification(Message(o), Variant(o));
      if o == Ok {
        fields := defaults;
      }
    }

    /** A click on a gallery item: adds an overlay, stops page scrolling and
        registers that overlay's Escape handler. */
    method OpenLightbox() returns (id: nat)
      requires Valid()
      modifies this`lightboxes, this`escapeHandlers, this`nextLightboxId, this`bodyOverflow
      ensures Valid()
      ensures id == old(nextLightboxId)
      ensures id !in old(lightboxes) && id !in old(escapeHandlers)
      ensures nextLightboxId == old(nextLightboxId) + 1
      ensures lightboxes == old(lightboxes) + {id}
      ensures escapeHandlers == old(escapeHandlers) + {id}
      ensures bodyOverflow == OverflowHidden
    {
      id := nextLightboxId;
      nextLightboxId := nextLightboxId + 1;
      lightboxes := lightboxes + {id};
      bodyOverflow := OverflowHidden;
      escapeHandlers := escapeHandlers + {id};
    }

    /** A click on the close button or on the overlay: removes the overlay
        and restores scrolling, but leaves its Escape handler registered. */
    method CloseLightbox(id: nat)
      requires Valid()
      requires id in lightboxes
      modifies this`lightboxes, this`bodyOverflow
      ensures Valid()
      ensures lightboxes == old(lightboxes) - {id}
      ensures bodyOverflow == OverflowDefault
      ensures id in escapeHandlers
    {
      lightboxes := lightboxes - {id};
      bodyOverflow := OverflowDefault;
    }

    /** A key press on the document. On Escape every registered handler runs
        its own lightbox's teardown and unregisters itself, so all overlays
        are gone and scrolling is restored when any handler was registered;
        any other key changes nothing. */
    method KeyDown(key: string)
      requires Valid()
      modifies this`lightboxes, this`escapeHandlers, this`bodyOverflow
      ensures Valid()
      ensures key == "Escape" ==>
        && lightboxes == old(lightboxes) - old(escapeHandlers) == {}
        && escapeHandlers == {}
        && bodyOverflow == (if old(escapeHandlers) == {} then old(bodyOverflow) else OverflowDefault)
      ensures key != "Escape" ==>
        lightboxes == old(lightboxes) && escapeHandlers == old(escapeHandlers)
        && bodyOverflow == old(bodyOverflow)
    {
      if key == "Escape" {
        if escapeHandlers != {} {
          bodyOverflow := OverflowDefault;
        }
        lightboxes := lightboxes - escapeHandlers;
        escapeHandlers := {};
      }
    }
  }
}
