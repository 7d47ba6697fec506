# Ghost of the Circus landing page: a Dafny model of its page logic

The landing page's script (`js/main.js`) wires a handful of handlers to the
page. This project models the decisions those handlers make and the page
state they change:

- **Contact form validation** (module `ContactForm`): a submission is a map
  from field name to value. A field counts as missing only when it is absent
  or empty. The checks run in a fixed order: required fields, then the email
  pattern, then the phone pattern. Each failure has its own message, and
  success has its message too.
- **The two patterns** (module `Patterns`): `^[^\s@]+@[^\s@]+\.[^\s@]+$` and
  `^1[3-9]\d{9}$` are written as recursive predicates, one per position in
  the pattern. Each is proved equal to a plain description of the strings it
  accepts. JavaScript's `\s` is the fixed set of WhiteSpace and
  LineTerminator code points. `\d` is ASCII 0-9.
- **Toasts** (module `Notifications`): the toasts in the document, in
  document order. Showing one removes the first toast present and appends
  the new one. Dismissing one removes it if it is still there. The variant
  picks the tint.
- **Stagger delays** (module `Stagger`): every container's items are an
  array of delay slots, written in index order.
- **The page** (class `Page.LandingPage`): the navbar's `scrolled` class,
  the three mobile-menu flags, the toasts, the form's fields, the open
  lightboxes, their registered Escape handlers and the body's overflow
  style. Each handler is a method. `Valid()` is what every run of handlers
  keeps true from page load on: the menu flags agree, at most one toast is
  present, and every open lightbox has its Escape handler registered.
  `EnterField` stands for the visitor typing into the form; it is input,
  not a handler of the script.

The Escape handler is detached only on the Escape path
(js/main.js:333-337). Closing a lightbox with its close button or a click on
its overlay runs the same teardown but leaves that handler registered. The
model keeps this: `CloseLightbox` promises that the closed lightbox's handler
is still registered, and `Valid()` says only that open lightboxes are a
subset of those with a handler, not that the two are equal. A later Escape
runs every leftover handler; each one removes a lightbox that is already
gone and sets the overflow to `''`.

## Model

| member | source | states |
|---|---|---|
| `Patterns.DomainMeans` | js/main.js:140 | the domain part `[^\s@]+\.[^\s@]+` accepts exactly the strings free of whitespace and '@' with a '.' that is neither first nor last |
| `Patterns.EmailPatternMeans` | js/main.js:140-141 | the email pattern accepts a string exactly when an '@' splits it into a non-empty local part and a domain part, both free of whitespace and '@', and the domain has a '.' that is neither first nor last |
| `Patterns.EmailHasOneAt` | js/main.js:140 | every accepted address holds exactly one '@' |
| `Patterns.EmailAcceptsExample` | js/main.js:140-141 | "a@b.co" is accepted |
| `Patterns.EmailRejectsExample` | js/main.js:140-143 | "not-an-email" is rejected |
| `Patterns.DigitsMeans` | js/main.js:147 | `\d{n}` at the end of input accepts exactly the strings of n ASCII digits |
| `Patterns.PhonePatternMeans` | js/main.js:147-148 | the phone pattern accepts exactly the 11-character strings that start with '1', have '3'..'9' second and ASCII digits in the other nine places |
| `Patterns.PhoneExamples` | js/main.js:147-150 | "12345678901" is rejected and "13812345678" is accepted |
| `ContactForm.Validate` | js/main.js:134-151 | the outcome is the missing-field error exactly when one of name, organization, phone or email is absent or empty, whatever the email and phone hold; otherwise the email error exactly when the email is malformed, whatever the phone holds; otherwise the phone error exactly when the phone is malformed; and acceptance exactly when all three checks pass |
| `ContactForm.PhoneIrrelevantUntilEmailPasses` | js/main.js:139-151 | while a field is missing or the email is bad, changing a filled-in phone number does not change the outcome |
| `ContactForm.RejectsExamplePhone` | js/main.js:146-150 | a filled-in submission with a valid email and a phone whose second digit is 2 gets the phone error |
| `ContactForm.PrefersEmailError` | js/main.js:139-151 | for every submission with all fields filled in, when both the email and the phone are malformed the outcome is the email error |
| `ContactForm.PrefersEmailErrorExample` | js/main.js:139-151 | the example submission with email "not-an-email" and phone "12345678901" gets the email error |
| `ContactForm.AcceptsCorrectedExample` | js/main.js:134-154 | the same submission with phone "13812345678" is accepted |
| `ContactForm.EmptyIsMissingSpaceIsNot` | js/main.js:134-137 | for every submission, an empty name gives the missing-field error whatever the other fields hold, and a name of one space passes the required check |
| `ContactForm.EmptyIsMissingSpaceIsNotExample` | js/main.js:134-151 | the example submission with an empty name gets the missing-field error; with a name of one space it gets past the required check to the phone error |
| `Notifications.TintOf` | js/main.js:191 | the tint is green exactly for "success", red exactly for "error", gold for every other variant |
| `Notifications.AfterShow` | js/main.js:172-175 | the new toast is last; every other toast left was present before; the count stays the same, or becomes one from none; with at most one toast before, exactly the new toast is present after |
| `Notifications.ShowKeepsSecondOfTwo` | js/main.js:172-175 | with two toasts present, showing a third removes only the first, so the single-toast promise needs at most one toast before |
| `Notifications.AfterDismiss` | js/main.js:229-241 | after a toast is removed, no toast with its id is present, every other toast is still present, and no toast is added |
| `Page.SubmitToastTint` | js/main.js:135-154 | a submission's toast is green exactly when the submission is accepted and red otherwise; it is never gold |
| `Stagger.DelayAt` | js/main.js:108-110 | the item at index i gets the delay i × increment |
| `Stagger.DefaultDelayAt` | js/main.js:102-120 | with the default increment, which all six calls use, the item at index i gets i × 100 ms |
| `Stagger.DelaysIncrease` | js/main.js:102-111 | the first item has delay 0 and, for a positive increment, delays strictly increase with the index, one increment apart |
| `Stagger.StaggerItems` | js/main.js:106-110 | after one container is staggered, its items hold exactly the delays 0, increment, 2 × increment, … |
| `Stagger.AddStaggerAnimation` | js/main.js:102-111 | after the call every container holds the delays of its own items, the index restarting at 0 in each container |
| `Page.LandingPage.HandleNavbarScroll` | js/main.js:21-27 | the navbar is "scrolled" exactly when the offset exceeds 50, whatever it was before, so a second run at the same offset changes nothing; nothing else changes |
| `Page.LandingPage.ToggleMobileMenu` | js/main.js:34-38 | all three flags flip, so flags that agree keep agreeing |
| `Page.LandingPage.CloseMobileMenu` | js/main.js:45-51 | a link click sets all three flags to false whatever they were |
| `Page.LandingPage.ShowNotification` | js/main.js:170-227 | the new toast is appended after the first present one is removed, and it is then the only toast present |
| `Page.LandingPage.DismissNotification` | js/main.js:229-241 | the toast's final removal, by its close button or its timer, leaves every other toast and is harmless when the toast is already gone |
| `Page.LandingPage.SubmitContactForm` | js/main.js:126-155 | the outcome is the validation of the current fields; exactly one toast, carrying the outcome's message and variant, is present afterwards; the fields are reset to their defaults on acceptance and left as typed on every error; the texts and variants come from `ContactForm.Message` and `ContactForm.Variant`, which hold those of js/main.js:135, 142, 149 and 154 |
| `Page.LandingPage.OpenLightbox` | js/main.js:250-339 | a click on a gallery item adds one new overlay, registers one new Escape handler for it and sets the body's overflow to "hidden" |
| `Page.LandingPage.CloseLightbox` | js/main.js:323-330 | the close button or an overlay click removes that overlay and sets the overflow back to '', and its Escape handler stays registered |
| `Page.LandingPage.KeyDown` | js/main.js:333-339 | Escape removes every overlay with a registered handler (with `Valid()`, all of them), unregisters every handler and restores the overflow when any handler ran; any other key changes nothing |

## Left out

- Smooth scrolling to anchors (js/main.js:56-73): it rests on layout measurements and `window.scrollTo`. The target is the element's top minus the navbar's height minus 20 pixels.
- The fade-in observer and lazy image loading (js/main.js:78-97, 346-363): these are browser visibility callbacks that only add a class or copy an attribute, then stop observing.
- Timers and animation: the toast's 5-second display time and its 300 ms slide-out (js/main.js:229-241) are not modelled as time. `DismissNotification` is the removal they end with.
- Markup and style injection (`innerHTML`, `cssText`, the `<style>` elements added for toasts and lightboxes): these are presentation only. The lightbox's image, alt text and caption paragraph are not modelled. The `<style>` element each toast adds to the head and never removes is not modelled either.
- Reading the form through `FormData` and `Object.fromEntries` (js/main.js:130-131): the form's values arrive as a map from field name to string. Repeated names and file inputs are not modelled.
- Preloading images, the analytics placeholder and the console banner (js/main.js:368-423): these are output only and promise nothing. The commented-out request to `/api/contact` (js/main.js:157-163) is not implemented.
- Strings are sequences of Unicode scalar values, where JavaScript without the `u` flag matches UTF-16 code units. For these two patterns the verdicts agree: a character outside the basic plane is never whitespace, '@', '.' or a digit. Lone surrogates cannot be represented.
- Absent page elements (the `if (navToggle)` and `if (contactForm)` guards) are not modelled: the page is assumed to have all of them.
- The page state at load (no `scrolled` class, menu closed) is taken from the constructor. The scroll handler is not run at load.
- Delays are whole milliseconds, not the `"<n>ms"` strings the script writes. An item inside two nested matching containers is written once per container, last by the inner one; each container is modelled as its own array of delay slots.
- Page.LandingPage.CloseLightbox: requires the lightbox to be open. Its close button and overlay cannot be clicked once they are removed.
- `showNotification`'s default variant `'info'` is never used: every call in the script passes its variant. `TintOf` covers it as "any other variant".
