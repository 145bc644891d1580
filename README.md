# Velvet Edge salon site — interactive logic

A Dafny model of the state-holding parts of the salon's one-page site:

- the four-step booking wizard (`BookingForm`, with its rule table in `BookingValidation`). It covers the current step, the form record and the error map; the handlers `validateStep`, `nextStep`, `prevStep`, `handleChange`, the service-card click and `handleSubmit`; and the views derived from that state (step markers, progress fraction, step description, booking summary, confirmation text);
- the footer newsletter form (`Footer`): subscribe and edit;
- the services carousel (`ServicesSection`): next/previous, card positions and styling tiers;
- the testimonial rotation (`TestimonialsSection`): the timer step, the dots and the active/previous/next roles;
- the gallery filter (`GallerySection`): the category buttons derived from the items and the filtered list;
- the FAQ accordion (`FaqSection`): one optional open item.

Shared pieces are in their own modules.

- `JsBuiltins` writes out the JavaScript behaviour the components rely on:
  - `%` truncates toward zero;
  - `split(sep)[0]`;
  - the `\s` character class.
- `EmailPattern` is the unanchored search `/\S+@\S+\.\S+/.test(s)`. Both the booking form and the newsletter use this one predicate, so the two email tests agree on every string by construction.
- `RingIndex` holds the successor, predecessor and offset arithmetic used by both carousels.

Each component's state is a class whose handler methods change its fields. Each handler's contract gives the whole new state, in terms of pure functions of the old state. The properties of those functions are proved as lemmas.

Where the code and a plain reading of its intent differ, the model follows the code:

- **Stylist name.** `stylist.split('-')[0]` keeps the space before the dash. For "Quinn Martins - Senior Stylist" the confirmation therefore reads "… with Quinn Martins  on …", with two spaces (`BookingForm.ConfirmationTextExample`).
- **Submitting.** `handleSubmit` validates the *current* step, not step 4. Before step 4 the form has no submit button, but a browser still submits a form with a single text-like input when Enter is pressed in it. Step 3 is that case: its only such input is the date. Submitting there validates only step 3 and can succeed. The model lets `HandleSubmit` run at any step.
- **Empty fields.** The emptiness tests are JavaScript truthiness on strings, so a value made only of whitespace counts as filled.

## Model

| member | source | states |
|---|---|---|
| BookingValidation.FormData.With | src/components/BookingForm.tsx:126 | the edited field takes the new value and every other field keeps its value |
| BookingValidation.FieldError | src/components/BookingForm.tsx:71-102 | one required field's rule: empty gives its "required" message, a non-empty non-matching email gives "Email address is invalid", otherwise no error; its consequences are proved in `StepErrorsExact` and `EmailErrorCases` |
| BookingValidation.StepErrors | src/components/BookingForm.tsx:66-107 | the map `validateStep(step)` installs: one entry per failing required field of the step; proved exact by `StepErrorsExact` and in closed form by `StepOneErrors`, `StepTwoErrors` and `StepThreeErrors` |
| BookingValidation.StepComplete | src/components/BookingForm.tsx:66-107 | the passing condition of each step stated field by field, independently of the error map; `ValidIffComplete` proves it equivalent to an empty map |
| BookingValidation.ValidIffComplete | src/components/BookingForm.tsx:66-107 | the error map of a step is empty exactly when every required field of that step is filled and, at step 2, the email matches the pattern |
| BookingValidation.StepErrorsExact | src/components/BookingForm.tsx:66-107 | a field is in the error map exactly when it is required by the step and empty (or is a non-matching email); an empty field carries its "required" message, a non-empty one the "invalid" message |
| BookingValidation.OtherStepsAlwaysValid | src/components/BookingForm.tsx:70-104 | steps other than 1, 2 and 3 produce an empty error map |
| BookingValidation.EmailErrorCases | src/components/BookingForm.tsx:84-90 | an empty email gets "Email is required"; a non-empty non-matching one gets "Email address is invalid"; no email error exactly when it is non-empty and matches |
| BookingValidation.WhitespaceCountsAsFilled | src/components/BookingForm.tsx:80-90 | a one-space name raises no error, and a one-space email is reported as invalid, not as missing |
| BookingValidation.StepOneErrors | src/components/BookingForm.tsx:70-78 | step 1's error map is the service entry if the service is empty plus the stylist entry if the stylist is empty |
| BookingValidation.StepTwoErrors | src/components/BookingForm.tsx:79-94 | step 2's error map is the name, email (required or invalid) and phone entries for exactly the failing fields |
| BookingValidation.StepThreeErrors | src/components/BookingForm.tsx:95-103 | step 3's error map is the date and time entries for exactly the empty fields |
| BookingValidation.StepErrorsWellFormed | src/components/BookingForm.tsx:71-102 | every entry validation produces is one of its field's fixed, non-empty messages |
| BookingForm.StepsNumbered | src/components/BookingForm.tsx:13-34 | the step table has four entries with ids 1 to 4 in order |
| BookingForm.StylistShown | src/components/BookingForm.tsx:143 | `stylist.split('-')[0]`; `StylistShownDropsRole` proves it is the text before the dash, trailing space kept |
| BookingForm.ConfirmationText | src/components/BookingForm.tsx:143 | the toast template filled with service, shown stylist, date and time; `ConfirmationTextExample` gives it in full for the bridal booking |
| BookingForm.StylistShownDropsRole | src/components/BookingForm.tsx:143 | for a "name-role" entry whose name has no dash, the shown stylist is the name, including any trailing space |
| BookingForm.StylistShownExample | src/components/BookingForm.tsx:48 | "Quinn Martins - Senior Stylist" is shown as "Quinn Martins " |
| BookingForm.ConfirmationTextExample | src/components/BookingForm.tsx:141-145 | the confirmation text for the bridal booking with Quinn Martins, in full |
| BookingForm.Summary | src/components/BookingForm.tsx:411-418 | the summary has the seven fixed captions in order, plus a Notes line exactly when notes are non-empty |
| BookingForm.SummaryShowsEachField | src/components/BookingForm.tsx:411-418 | each field is found under its own caption with its own value, the stylist shown without its role, and Notes is absent when empty |
| BookingForm.MarkerFor | src/components/BookingForm.tsx:186-193 | the `===` then `<` chain: current, completed or upcoming |
| BookingForm.Markers | src/components/BookingForm.tsx:178-193 | one marker per step of the table; `MarkersSplitAtCurrent` proves which is completed, current and upcoming |
| BookingForm.MarkersSplitAtCurrent | src/components/BookingForm.tsx:186-193 | markers before the current step are completed, the current one is current and is the only one, and later ones are upcoming |
| BookingForm.Progress | src/components/BookingForm.tsx:213 | for a step in range the filled fraction lies in [0,1], 0 at the first step and 1 at the last |
| BookingForm.ProgressIncreases | src/components/BookingForm.tsx:213 | the fraction grows strictly with the step |
| BookingForm.BookingWizard.constructor | src/components/BookingForm.tsx:52-63 | the wizard starts at step 1 with an empty form and no errors |
| BookingForm.BookingWizard.CurrentStepInfo | src/components/BookingForm.tsx:217 | `steps[currentStep - 1]` is in range and is the entry of the current step |
| BookingForm.BookingWizard.ValidateStep | src/components/BookingForm.tsx:66-108 | the error map becomes exactly the step's failures; the result is true exactly when that map is empty; form and step are unchanged |
| BookingForm.BookingWizard.NextStep | src/components/BookingForm.tsx:110-116 | errors become the current step's failures; the step advances by one exactly when the step is complete and below 4; the form is unchanged; the step stays in [1,4] |
| BookingForm.BookingWizard.PrevStep | src/components/BookingForm.tsx:118-122 | the step goes back by one above 1 and stays at 1; form and errors are unchanged |
| BookingForm.BookingWizard.HandleChange | src/components/BookingForm.tsx:124-136 | the named field takes the value, the others keep theirs; that field's error is removed whatever the value; other errors and the step are unchanged |
| BookingForm.BookingWizard.SelectService | src/components/BookingForm.tsx:237-246 | the service takes the clicked value and its error is removed; everything else is unchanged |
| BookingForm.BookingWizard.HandleSubmit | src/components/BookingForm.tsx:138-160 | on a complete step it returns the "Booking Successful!" toast with the confirmation text and resets form, errors and step; otherwise no toast, a non-empty error map of the step's failures, and form and step unchanged |
| BookingForm.ScenarioChooseService | src/components/BookingForm.tsx:70-78 | choosing a service and a stylist at step 1 clears the errors and moves to step 2 |
| BookingForm.ScenarioBadEmail | src/components/BookingForm.tsx:84-90 | a filled step 2 with "not-an-email" stays at step 2 with only the "invalid" message |
| BookingForm.ScenarioSubmitBridal | src/components/BookingForm.tsx:138-160 | submitting the completed bridal booking at step 4 resets the wizard |
| BookingForm.ScenarioEmptyFirstStep | src/components/BookingForm.tsx:66-116 | pressing Continue on a fresh wizard leaves it at step 1 with exactly the two step-1 messages |
| JsBuiltins.JsRem | src/components/ServicesSection.tsx:62 | JavaScript `%` by a positive divisor: strictly between minus and plus the divisor, the identity on [0,n) and on (-n,0], one subtraction on [n,2n) |
| JsBuiltins.SplitHead | src/components/BookingForm.tsx:143 | `split(sep)[0]` is a prefix without `sep` that stops at the first `sep`, and is the whole string when `sep` is absent |
| JsBuiltins.SplitHeadUnique | src/components/BookingForm.tsx:143 | those three facts determine `split(sep)[0]` uniquely |
| JsBuiltins.IsWhitespace | src/components/BookingForm.tsx:87 | the code points of the regular-expression class `\s`: ECMAScript white space and line terminators |
| EmailPattern.MatchAt | src/components/BookingForm.tsx:87 | one way `\S+@\S+\.\S+` can match: a non-space before the `@`, only non-spaces up to the `.`, and a non-space after it |
| EmailPattern.Matches | src/components/Footer.tsx:12 | `/\S+@\S+\.\S+/.test(s)` as an unanchored search: some placement of `@` and `.` matches; the lemmas below state what it accepts and rejects |
| EmailPattern.MatchesInContext | src/components/BookingForm.tsx:87 | the search is unanchored: text added around a matching string keeps it matching |
| EmailPattern.MatchLiesInOneToken | src/components/Footer.tsx:12 | a string matches exactly when one of its whitespace-free stretches matches |
| EmailPattern.MatchNeedsAtThenDot | src/components/Footer.tsx:12 | a match needs an `@` after the first character and a later `.` before the last, so at least five characters |
| EmailPattern.WhitespaceNeverMatches | src/components/BookingForm.tsx:87 | a string made only of whitespace never matches |
| EmailPattern.ExamplesThatMatch | src/components/Footer.tsx:12 | "jane@example.com" matches, and so does the same address inside other text |
| EmailPattern.ExampleWithoutAt | src/components/Footer.tsx:12 | "not-an-email" does not match |
| EmailPattern.ExampleWithoutDot | src/components/Footer.tsx:12 | "jane@example" does not match |
| EmailPattern.ExampleSpaceBeforeAt | src/components/Footer.tsx:12 | "jane @example.com" does not match |
| Footer.NewsletterForm.constructor | src/components/Footer.tsx:7-8 | the email and the error start empty |
| Footer.NewsletterForm.HandleSubscribe | src/components/Footer.tsx:15-36 | an empty email sets "Please enter your email" and the format is not consulted; a non-matching one sets "Please enter a valid email" and is kept; a matching one emits the subscription toast and clears both fields |
| Footer.NewsletterForm.HandleInput | src/components/Footer.tsx:100-103 | editing stores the new value and always clears the error |
| RingIndex.Succ | src/components/ServicesSection.tsx:62 | one step forward stays in [0,n) and wraps the last index to 0 |
| RingIndex.Pred | src/components/ServicesSection.tsx:66 | one step back stays in [0,n) and wraps 0 to the last index |
| RingIndex.Offset | src/components/ServicesSection.tsx:83 | a card's position lies in [0,n) and is its distance ahead of the current card, wrapping once |
| RingIndex.SuccPredInverse | src/components/ServicesSection.tsx:61-67 | stepping back undoes stepping forward, and forward undoes back |
| RingIndex.SuccIterAhead | src/components/TestimonialsSection.tsx:57 | k steps forward for k up to n land k places ahead, wrapping once |
| RingIndex.FullTurn | src/components/TestimonialsSection.tsx:57 | n steps forward return to the start |
| RingIndex.OffsetBijective | src/components/ServicesSection.tsx:83 | positions are a bijection of the cards onto [0,n), and only the current card has position 0 |
| ServicesSection.CardPosition | src/components/ServicesSection.tsx:83 | `(index - currentIndex + services.length) % services.length`, the ring offset; its range and bijectivity are `RingIndex.Offset` and `RingIndex.OffsetBijective` |
| ServicesSection.TierOf | src/components/ServicesSection.tsx:91-110 | the styling chain on `position`; `TierLayout` proves the tier and side of every position |
| ServicesSection.IsActive | src/components/ServicesSection.tsx:84 | `position === 0`; `CardsAroundCurrent` proves only the current card is active |
| ServicesSection.TierLayout | src/components/ServicesSection.tsx:91-110 | position 0 is the front tier, 1 and 4 the adjacent tier, 2 and 3 the two-away tier, with positions up to half the ring on the right and the rest on the left; no position is hidden |
| ServicesSection.CardsAroundCurrent | src/components/ServicesSection.tsx:83-110 | exactly the current card is active (shows "Book Now"), no card is hidden, and the next and previous cards are adjacent on the right and left |
| ServicesSection.ServicesCarousel.constructor | src/components/ServicesSection.tsx:59 | the carousel starts at card 0 |
| ServicesSection.ServicesCarousel.NextService | src/components/ServicesSection.tsx:61-63 | the index moves one step forward in [0,5) |
| ServicesSection.ServicesCarousel.PrevService | src/components/ServicesSection.tsx:65-67 | the index moves one step back in [0,5) |
| ServicesSection.ButtonsRoundTrip | src/components/ServicesSection.tsx:61-67 | next then previous restores the card, and five presses of next are a full turn |
| TestimonialsSection.PrevIndex | src/components/TestimonialsSection.tsx:83 | the `isPrev` index; `NeighboursDistinct` proves it is (active+4)%5 |
| TestimonialsSection.NextIndex | src/components/TestimonialsSection.tsx:84 | the `isNext` index; `NeighboursDistinct` proves it is (active+1)%5 |
| TestimonialsSection.RoleOf | src/components/TestimonialsSection.tsx:91-104 | the active, previous, next precedence with hidden as the default; `RolesAroundActive` proves who gets each role |
| TestimonialsSection.DotHighlighted | src/components/TestimonialsSection.tsx:152 | the dot drawn wide is the active index's; `RolesAroundActive` ties it to the active role |
| TestimonialsSection.HiddenIndices | src/components/TestimonialsSection.tsx:86-104 | the testimonials left with the default styling; `ExactlyTwoHidden` proves there are exactly two |
| TestimonialsSection.NeighboursDistinct | src/components/TestimonialsSection.tsx:83-84 | the previous index is (active+4)%5, the next is (active+1)%5, and the three are pairwise distinct |
| TestimonialsSection.RolesAroundActive | src/components/TestimonialsSection.tsx:82-104 | exactly one testimonial is active and its dot is the highlighted one; the neighbours take the previous and next roles |
| TestimonialsSection.ExactlyTwoHidden | src/components/TestimonialsSection.tsx:91-104 | the hidden testimonials are exactly the two that are two steps away |
| TestimonialsSection.TestimonialCarousel.constructor | src/components/TestimonialsSection.tsx:52 | the rotation starts at testimonial 0 |
| TestimonialsSection.TestimonialCarousel.Rotate | src/components/TestimonialsSection.tsx:57 | the timer step moves the active index one step forward in [0,5) |
| TestimonialsSection.TestimonialCarousel.SelectDot | src/components/TestimonialsSection.tsx:149 | clicking dot i makes i the active index |
| TestimonialsSection.FiveRotations | src/components/TestimonialsSection.tsx:57 | five timer steps return to the starting testimonial |
| GallerySection.FirstIndex | src/components/GallerySection.tsx:62 | the position of a value's first occurrence, at the length exactly when the value is absent |
| GallerySection.DistinctSameValuesOnce | src/components/GallerySection.tsx:62 | `[...new Set(xs)]` has no duplicates and holds exactly the values of `xs` |
| GallerySection.DistinctKeepsFirstOccurrenceOrder | src/components/GallerySection.tsx:62 | `[...new Set(xs)]` lists the values in order of first occurrence |
| GallerySection.Distinct | src/components/GallerySection.tsx:62 | `[...new Set(xs)]` built as a `Set` is filled, from the left; its properties are the two lemmas above |
| GallerySection.Categories | src/components/GallerySection.tsx:62 | `['All', ...new Set(categories)]`; `CategoriesShape` proves its shape |
| GallerySection.CategoriesShape | src/components/GallerySection.tsx:62 | the buttons start with "All", followed by every item's category once, only item categories, in order of first appearance |
| GallerySection.ShippedCategories | src/components/GallerySection.tsx:14-62 | for the shipped items the buttons are All, Cut, Color, Style, Special |
| GallerySection.FilterCategoryExact | src/components/GallerySection.tsx:66 | filtering by c keeps only items of category c, each as often as in the list, as a subsequence of the list |
| GallerySection.FilterCategory | src/components/GallerySection.tsx:66 | `items.filter(item => item.category === c)`; `FilterCategoryExact` proves what it keeps |
| GallerySection.FilteredItems | src/components/GallerySection.tsx:64-66 | the whole list for "All", otherwise the category filter; see `AllShowsEverything` and `FilterCategoryExact` |
| GallerySection.AllShowsEverything | src/components/GallerySection.tsx:64-65 | the "All" filter shows the list unchanged |
| GallerySection.ShippedCutFilter | src/components/GallerySection.tsx:14-66 | the "Cut" filter shows the first and the sixth shipped item |
| GallerySection.GalleryFilter.constructor | src/components/GallerySection.tsx:60 | the filter starts at "All" |
| GallerySection.GalleryFilter.SetActiveFilter | src/components/GallerySection.tsx:81 | a button click makes its category the active filter |
| GallerySection.GalleryFilter.VisibleItems | src/components/GallerySection.tsx:95 | the items rendered for the active filter |
| FaqSection.FaqAccordion.constructor | src/components/FaqSection.tsx:46 | item 1 starts open |
| FaqSection.FaqAccordion.ToggleItem | src/components/FaqSection.tsx:48-50 | toggling the open item closes it, toggling any other opens it; afterwards no other item is open |
| FaqSection.FaqAccordion.IsOpen | src/components/FaqSection.tsx:73-81 | an item is drawn open exactly when `openItem` is its id |
| FaqSection.AtMostOneOpen | src/components/FaqSection.tsx:73-81 | two items shown open are the same item |
| FaqSection.DoubleToggle | src/components/FaqSection.tsx:49 | toggling the open item twice leaves it open |

## Left out

- Toasts: `useToast` is an external hook. A handler returns the toast it would show as an `Option<Toast>` value, and the hook itself is not modelled.
- Timers: the `setInterval`/`clearInterval` scheduling of the testimonial rotation is not modelled. Only the step it runs every five seconds is (`TestimonialCarousel.Rotate`).
- Rendering: the JSX markup, `cn` class strings, CSS transforms, opacities and the GalleryCard hover animation are not modelled. The progress bar is modelled as the exact fraction `Progress`, not as its percentage string.
- React update semantics: state batching and asynchronous `setState` are not modelled. Each handler is one atomic, sequential update of its component's fields.
- HeroSection.tsx, Navbar.tsx and Index.tsx are not part of this model. They hold DOM queries, scroll listeners, animation timeouts and floating-point scroll offsets.
- Content: testimonial texts, FAQ answers, service prices and image URLs are omitted. Only the counts and the fields the logic reads are kept.
- `BookingWizard.HandleChange`: the input name ranges over the eight form keys. Those are the only named inputs of the form, so edits under other names are not modelled.
- `TestimonialCarousel.SelectDot`: the index is required to be in range, because dots are rendered only for the list's indices.
- Characters: strings are sequences of Unicode scalar values, where JavaScript uses UTF-16 code units. No code point that `\s` matches is a surrogate, so the email test gives the same answer either way.
