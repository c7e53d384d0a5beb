# MEPTEQ Global site: form, carousel and gallery logic

The MEPTEQ Global website is a React single-page site for an MEP
(mechanical, electrical, plumbing) engineering consultancy. Nearly all of it
is static markup. This project models in Dafny the parts that make decisions:

- **Job application** (`Hire.jsx`). The careers page opens an application
  modal for a position. The form holds six fields and validates five: name,
  e-mail, phone, years of experience and motivation; the position is never
  checked.
  A valid application is relayed through a transactional-e-mail service.
  After an `'OK'` reply the modal closes itself 3000 ms later.
- **Contact form** (`contact.jsx`). It validates name, e-mail and message.
  Phone and subject are free text. A valid submission goes through a
  simulated 1500 ms API call, then the form is cleared and a snackbar shows
  success.
- **Hero carousel** (`header.jsx`). A slide index over six destinations plus
  the direction of the last move. A 9000 ms interval, swipes and side
  indicators change them.
- **Project gallery** (`gallery.jsx`). A filter bar holds `"all"` followed by
  the distinct categories of the data. The grid shows the projects of the
  selected category. The component also keeps a hovered item and a loading
  flag.

Files:

- `wrappers.dfy`: `Option`.
- `text.dfy`: the JavaScript whitespace set, `trim()` and UTF-16 `length`.
- `patterns.dfy`: the e-mail and phone regular expressions.
- `numbers.dfy`: the string-to-number conversion behind `experience < 0`.
- `hire.dfy`, `contact.dfy`, `carousel.dfy` and `gallery.dfy`: one module
  for each component.

State that a component updates in place is a Dafny `class`. The validation
rules and the derived lists are functions. Each asynchronous event is a
method that the environment calls:

- `SendSettled(outcome)` delivers the settled e-mail call, where the outcome
  is `Resolved(text)` or `Threw`.
- `CloseTimerFires` fires the 3000 ms auto-close.
- `DelayElapsed` fires the contact form's simulated delay.
- `Tick` fires the carousel interval.

A button that the markup disables cannot be clicked. Its handler therefore
requires the button to be enabled.

## Model

| member | source | states |
|---|---|---|
| Text.Trim | src/components/Hire.jsx:92 | `s.trim()`: what it leaves is stated by `Text.TrimStartSpec`, `Text.TrimEndSpec`, `Text.TrimUnpadded`, `Text.TrimEmptyIff` and `Text.TrimPadded` |
| Text.TrimStartSpec | src/components/Hire.jsx:92 | `trimStart` removes a prefix made only of whitespace and leaves a string that is empty or starts with a non-whitespace character |
| Text.TrimEndSpec | src/components/Hire.jsx:92 | `trimEnd` removes a suffix made only of whitespace and leaves a string that is empty or ends with a non-whitespace character |
| Text.TrimUnpadded | src/components/Hire.jsx:108-110 | the result of `trim()` neither begins nor ends with whitespace |
| Text.TrimEmptyIff | src/components/Hire.jsx:92 | `!s.trim()` holds exactly when every character of `s` is whitespace |
| Text.TrimPadded | src/components/Hire.jsx:110 | trimming whitespace-padded, unpadded text gives back exactly that text |
| Text.TrimStartPadded | src/components/Hire.jsx:110 | leading whitespace before a non-whitespace character is all that `trimStart` removes |
| Text.TrimEndPadded | src/components/Hire.jsx:110 | trailing whitespace after a non-whitespace character is all that `trimEnd` removes |
| Text.Utf16Length | src/components/Hire.jsx:110 | `.length` counts UTF-16 code units, between one and two per character |
| Text.Utf16LengthBasicPlane | src/components/Hire.jsx:110 | for Basic Multilingual Plane text, `.length` is the number of characters |
| Patterns.MatchesEmailPattern | src/components/Hire.jsx:95 | the e-mail regular expression test, used by both forms (contact.jsx:63); its language is stated by `Patterns.EmailPatternIsAddressShape` |
| Patterns.IndexOfSpec | src/components/Hire.jsx:95 | the matcher's split point is the first '@', or the length of the string when there is none |
| Patterns.IndexOfFirst | src/components/Hire.jsx:95 | a position that holds '@' with no earlier '@' is the split point |
| Patterns.EmailPatternIsAddressShape | src/components/Hire.jsx:95 | `/^[^\s@]+@[^\s@]+\.[^\s@]+$/` accepts exactly the strings L@A.B where L, A and B are non-empty and hold neither whitespace nor '@' (A may hold dots) |
| Patterns.RemoveWhitespace | src/components/Hire.jsx:100 | `replace(/\s/g, '')`; stated by `Patterns.RemoveWhitespaceSpec`, `Patterns.RemoveWhitespaceKeeps` and `Patterns.RemoveWhitespaceAppend` |
| Patterns.MatchesPhonePattern | src/components/Hire.jsx:100 | the phone regular expression test; stated by `Patterns.PhonePatternShape`, `Patterns.ContainsNonPhoneChar` and `Patterns.PhoneCheckIgnoresSpacing` |
| Patterns.RemoveWhitespaceSpec | src/components/Hire.jsx:100 | `replace(/\s/g, '')` leaves no whitespace and never lengthens the text; it empties blank text and leaves text without whitespace unchanged |
| Patterns.RemoveWhitespaceKeeps | src/components/Hire.jsx:100 | every character that is not whitespace survives the replacement |
| Patterns.RemoveWhitespaceAppend | src/components/Hire.jsx:100 | removing whitespace distributes over concatenation |
| Patterns.PhoneCheckIgnoresSpacing | src/components/Hire.jsx:100 | inserting whitespace anywhere in a phone number never changes the pattern's verdict |
| Patterns.ContainsNonPhoneChar | src/components/Hire.jsx:100 | text holding a character that is neither a digit nor '+' is never accepted |
| Patterns.PhonePatternShape | src/components/Hire.jsx:100 | an accepted phone number is 1 to 17 characters long and is all digits apart from an optional leading '+' |
| Numbers.ToInteger | src/components/Hire.jsx:105 | the number a string converts to, when it is an optionally-signed decimal integer; stated by `Numbers.DecimalRoundTrip`, `Numbers.UnsignedToInteger` and `Numbers.NegatedToInteger` |
| Numbers.IsNegativeNumber | src/components/Hire.jsx:105 | `experience < 0` on a string; stated by `Numbers.NegativeDecimalIff` and `Numbers.NonNumericNotNegative` |
| Numbers.DigitChar | src/components/Hire.jsx:105 | the digit character for 0..9 reads back as that value |
| Numbers.DigitsRoundTrip | src/components/Hire.jsx:105 | the decimal digits of a natural number read back as that number |
| Numbers.TrimNoWhitespace | src/components/Hire.jsx:105 | text without whitespace is unchanged by the conversion's trimming |
| Numbers.DigitsUnpadded | src/components/Hire.jsx:105 | a run of digits is unchanged by trimming |
| Numbers.ParseUnsigned | src/components/Hire.jsx:105 | an unsigned run of digits parses to its value |
| Numbers.UnsignedToInteger | src/components/Hire.jsx:105 | an unsigned run of digits converts to its value |
| Numbers.NegatedToInteger | src/components/Hire.jsx:105 | '-' followed by digits converts to the negated value |
| Numbers.DecimalRoundTrip | src/components/Hire.jsx:105 | the decimal text of every integer converts back to that integer |
| Numbers.NegativeDecimalIff | src/components/Hire.jsx:105 | the decimal text of `n` compares below 0 exactly when `n < 0` |
| Numbers.NonNumericNotNegative | src/components/Hire.jsx:105 | text that is not a number is never below 0 (NaN < 0 is false) |
| Hire.Application.With | src/components/Hire.jsx:128 | `{ ...formData, [f]: v }` sets field `f` to `v` and leaves every other field as it was |
| Hire.NameError | src/components/Hire.jsx:92 | the name rule; stated by `Hire.NameRule` |
| Hire.EmailError | src/components/Hire.jsx:93-97 | the e-mail rule; stated by `Hire.EmailRule` |
| Hire.PhoneError | src/components/Hire.jsx:98-102 | the phone rule; stated by `Hire.PhoneRule` and `Hire.PlaceholderPhoneRejected` |
| Hire.ExperienceError | src/components/Hire.jsx:103-107 | the experience rule; stated by `Hire.ExperienceRule` and `Hire.ExperienceAcceptsZeroAndText` |
| Hire.MotivationError | src/components/Hire.jsx:108-112 | the motivation rule; stated by `Hire.MotivationRule` and `Hire.MotivationThreshold` |
| Hire.HireErrors | src/components/Hire.jsx:89-113 | the error map of validateForm; stated by `Hire.HireErrorsEntries`, `Hire.ValidIffEveryRulePasses` and `Hire.PositionNeverValidated` |
| Hire.CollectErrors | src/components/Hire.jsx:89-113 | filling `errors` field by field gives exactly the error map of the five rules |
| Hire.HireErrorsEntries | src/components/Hire.jsx:89-113 | a field has an error entry exactly when its rule fails, and the entry holds that rule's message |
| Hire.ErrorMapEntries | src/components/Hire.jsx:89-113 | each rule's message lands under its own key and no other key |
| Hire.NameRule | src/components/Hire.jsx:92 | a name error is recorded exactly when the name is blank |
| Hire.EmailRule | src/components/Hire.jsx:93-97 | a blank e-mail is "required"; any other e-mail is an error exactly when the untrimmed text is not L@A.B |
| Hire.PhoneRule | src/components/Hire.jsx:98-102 | a blank phone is "required"; any other phone is valid exactly when, with whitespace removed, it matches `^[\+]?[1-9][\d]{0,15}$` |
| Hire.PlaceholderPhoneRejected | src/components/Hire.jsx:100 | the field's own placeholder "+1 (555) 123-4567" is refused as an invalid phone number |
| Hire.ExperienceRule | src/components/Hire.jsx:103-107 | the decimal text of `n` is refused exactly when `n < 0` |
| Hire.ExperienceAcceptsZeroAndText | src/components/Hire.jsx:103-107 | "0" is accepted, and so is non-numeric text |
| Hire.MotivationRule | src/components/Hire.jsx:108-112 | motivation is refused exactly when its trimmed text is shorter than 50 UTF-16 code units, which includes blank text |
| Hire.MotivationThreshold | src/components/Hire.jsx:108-112 | with any whitespace padding, 50 trimmed characters pass and 49 do not |
| Hire.ValidIffEveryRulePasses | src/components/Hire.jsx:114-115 | `validateForm` accepts exactly when every field rule passes |
| Hire.PositionNeverValidated | src/components/Hire.jsx:89-116 | the position never has an error entry, and changing it never changes the error map |
| Hire.HireForm.SubmitDisabled | src/components/Hire.jsx:1195 | the submit button's `disabled`; `Hire.SubmitOnce` states it holds after 'OK' and not after a failure |
| Hire.HireForm.constructor | src/components/Hire.jsx:5-18 | the modal starts closed with empty fields, no errors, status '' and nothing in flight |
| Hire.HireForm.ValidateForm | src/components/Hire.jsx:89-116 | replaces `formErrors` with the computed map and returns whether that map is empty |
| Hire.HireForm.HandleApply | src/components/Hire.jsx:118-125 | sets the position in the form and in `selectedPosition`, opens the modal, locks page scrolling, and clears status and errors while keeping the other fields |
| Hire.HireForm.HandleInputChange | src/components/Hire.jsx:127-133 | sets only field `f`; blanks only `formErrors[f]`, and only when that error was showing |
| Hire.HireForm.HandleSubmit | src/components/Hire.jsx:135-168 | an invalid form records its errors and sends nothing, and `isSubmitting` stays false; a valid one clears the status, marks the send in flight and sends the form's eight template parameters |
| Hire.HireForm.SendSettled | src/components/Hire.jsx:169-182 | 'OK' gives success and schedules one auto-close; other text leaves the status ''; a throw gives error; `isSubmitting` is false afterwards |
| Hire.HireForm.CloseApplication | src/components/Hire.jsx:185-191 | closes the modal, unlocks scrolling, and resets all six fields, the status and the errors |
| Hire.HireForm.CloseTimerFires | src/components/Hire.jsx:173-175 | a scheduled auto-close closes the modal and resets the form |
| Hire.SubmitOnce | src/components/Hire.jsx:135-182 | one submit click, end to end: nothing is sent unless the form is valid, `isSubmitting` ends false, and after 'OK' the submit button stays disabled |
| Contact.ContactData.With | src/components/contact.jsx:81 | `{ ...prevState, [name]: value }` sets one field and leaves the others |
| Contact.NameError | src/components/contact.jsx:59-61 | the name rule; stated by `Contact.BlankRules` |
| Contact.EmailError | src/components/contact.jsx:63-68 | the e-mail rule; stated by `Contact.EmailRule` |
| Contact.MessageError | src/components/contact.jsx:70-72 | the message rule; stated by `Contact.BlankRules` |
| Contact.ContactErrors | src/components/contact.jsx:55-73 | the `newErrors` map; stated by `Contact.ContactErrorsEntries` and `Contact.OptionalFieldsIgnored` |
| Contact.CollectErrors | src/components/contact.jsx:55-73 | building `newErrors` gives exactly the error map of the three rules |
| Contact.ErrorMapEntries | src/components/contact.jsx:55-73 | each rule's message lands under its own key and no other key |
| Contact.ContactErrorsEntries | src/components/contact.jsx:55-73 | a field has an error exactly when its rule fails; phone and subject never do |
| Contact.BlankRules | src/components/contact.jsx:59-72 | name and message are errors exactly when blank, with no minimum length |
| Contact.EmailRule | src/components/contact.jsx:63-68 | a blank e-mail is "Email is required"; any other e-mail is an error exactly when it is not L@A.B |
| Contact.OptionalFieldsIgnored | src/components/contact.jsx:57 | editing phone or subject never changes the error map |
| Contact.ContactForm.constructor | src/components/contact.jsx:32-52 | the form starts from `initialState`, with no errors, not submitting, no success and the snackbar closed |
| Contact.ContactForm.ValidateForm | src/components/contact.jsx:55-76 | replaces the error map entirely with the computed one, every message non-empty, and returns whether it is empty |
| Contact.ContactForm.HandleChange | src/components/contact.jsx:79-91 | updates only that field and removes only that field's error key |
| Contact.ContactForm.ClearForm | src/components/contact.jsx:94-97 | fields back to `initialState`, no errors |
| Contact.ContactForm.HandleSubmit | src/components/contact.jsx:100-117 | an invalid form shows its errors, is not submitting and is not cleared; a valid one is submitting with the delay pending; `isSuccess` is false and `errorMessage` is empty either way |
| Contact.ContactForm.DelayElapsed | src/components/contact.jsx:118-127 | the form is cleared, it is no longer submitting, `isSuccess` is true, `errorMessage` is empty and the snackbar is open |
| Contact.ContactForm.HandleSnackbarClose | src/components/contact.jsx:130-132 | the snackbar is closed |
| Hero.NextIndex | src/components/header.jsx:86 | the next index stays in range and wraps from the last slide to 0 |
| Hero.PrevIndex | src/components/header.jsx:91 | the previous index stays in range and is `(i - 1 + N) mod N` |
| Hero.IndicatorDirection | src/components/header.jsx:312 | the direction is 1 exactly when the target is after the current slide, otherwise -1 |
| Hero.Advance | src/components/header.jsx:79 | any number of forward moves stays in range |
| Hero.PrevUndoesNext | src/components/header.jsx:86-91 | going back after going forward restores the index |
| Hero.NextUndoesPrev | src/components/header.jsx:86-91 | going forward after going back restores the index |
| Hero.AdvanceIsModular | src/components/header.jsx:79 | `k` forward moves from `i` land on `(i + k) mod N` |
| Hero.FullRoundReturns | src/components/header.jsx:79 | six forward moves return to the start |
| Hero.Carousel.constructor | src/components/header.jsx:73-74 | the carousel starts at slide 0 with direction 0 |
| Hero.Carousel.Tick | src/components/header.jsx:77-80 | an interval firing sets direction 1 and moves to the next slide, keeping the index in range |
| Hero.Carousel.NextSlide | src/components/header.jsx:84-87 | direction 1, next slide, index in range |
| Hero.Carousel.PrevSlide | src/components/header.jsx:89-92 | direction -1, previous slide, index in range |
| Hero.Carousel.SelectSlide | src/components/header.jsx:311-314 | the clicked slide becomes current; the direction is 1 exactly when it was after the old slide |
| Hero.Carousel.SwipedLeft | src/components/header.jsx:95 | a left swipe is exactly `nextSlide` |
| Hero.Carousel.SwipedRight | src/components/header.jsx:96 | a right swipe is exactly `prevSlide` |
| Hero.NavigationRoundTrips | src/components/header.jsx:84-92 | forward then back, and back then forward, restore the slide; clicking the current slide's indicator gives direction -1 |
| Gallery.Categories | src/components/gallery.jsx:12-17 | the filter list is never empty and always starts with "all" |
| Gallery.FilteredProjects | src/components/gallery.jsx:49-53 | no data shows nothing, and "all" shows the data unchanged |
| Gallery.CategoryValues | src/components/gallery.jsx:15 | `map(...).filter(Boolean)`; stated by `Gallery.CategoryValuesMembers` |
| Gallery.Distinct | src/components/gallery.jsx:15 | `[...new Set(s)]`; stated by `Gallery.DistinctMembers` and `Gallery.DistinctOrder` |
| Gallery.InCategory | src/components/gallery.jsx:52 | the category filter; stated by `Gallery.InCategorySpec` |
| Gallery.ShowFilterButtons | src/components/gallery.jsx:366 | `categories.length > 1`; stated by `Gallery.ShowFilterButtonsIff` |
| Gallery.GridContent | src/components/gallery.jsx:386-425 | the grid's three renderings; stated by `Gallery.NoResultsIff` |
| Gallery.FirstIndex | src/components/gallery.jsx:15 | the first occurrence of a value, with no earlier one |
| Gallery.CategoryValuesMembers | src/components/gallery.jsx:15 | `map(...).filter(Boolean)` holds exactly the non-empty categories present in the data |
| Gallery.DistinctMembers | src/components/gallery.jsx:15 | `[...new Set(s)]` holds the same values as `s`, each once |
| Gallery.DistinctOrder | src/components/gallery.jsx:15 | `[...new Set(s)]` lists values in order of first occurrence |
| Gallery.FirstIndexPrefix | src/components/gallery.jsx:15 | appending a value never moves the first occurrence of an earlier value |
| Gallery.FirstIndexLast | src/components/gallery.jsx:15 | a value first seen at the end has its first occurrence there |
| Gallery.CategoriesSpec | src/components/gallery.jsx:12-17 | "all", then exactly the distinct truthy categories of the data, without repeats |
| Gallery.NoData | src/components/gallery.jsx:12-53 | without data the list is `["all"]`, nothing is shown and no buttons appear |
| Gallery.ShowFilterButtonsIff | src/components/gallery.jsx:366 | the filter buttons appear exactly when some project has a truthy category |
| Gallery.AllCategoryDuplicated | src/components/gallery.jsx:12-17 | a project whose category is literally "all" puts "all" in the list exactly twice |
| Gallery.OccursOnce | src/components/gallery.jsx:15 | a value of a list without repeats, such as `[...new Set(s)]`, occurs in it exactly once |
| Gallery.InCategorySpec | src/components/gallery.jsx:52 | the category filter keeps, in order, only projects of that category, each as many times as the data holds it |
| Gallery.InCategoryOrdered | src/components/gallery.jsx:52 | the category filter keeps, in order, only projects of that category |
| Gallery.InCategoryCount | src/components/gallery.jsx:52 | the category filter keeps each project of that category as often as the data holds it, and no other |
| Gallery.FilteredProjectsSpec | src/components/gallery.jsx:49-53 | any other filter shows an order-preserving subsequence of the data holding exactly the projects of that category |
| Gallery.NoResultsIff | src/components/gallery.jsx:386-425 | once data is present, "No projects found" shows exactly when the filter matches no project |
| Gallery.GalleryView.constructor | src/components/gallery.jsx:6-8 | `isLoading` is "no data", the filter is "all" and nothing is hovered |
| Gallery.GalleryView.DataChanged | src/components/gallery.jsx:19-21 | after a data change `isLoading` is again "no data" |
| Gallery.GalleryView.SelectFilter | src/components/gallery.jsx:366-372 | clicking a listed category's button selects that category |
| Gallery.GalleryView.Shown | src/components/gallery.jsx:386-425 | what the grid renders for the current state; used as `MouseEnter`'s precondition |
| Gallery.GalleryView.MouseEnter | src/components/gallery.jsx:272-274 | the hovered item is the one entered |
| Gallery.GalleryView.MouseLeave | src/components/gallery.jsx:276-278 | nothing is hovered |

## Left out

- The e-mail service client is not part of this model: its initialisation, its service and template identifiers, and how it delivers. The call is a request value whose settled outcome the caller supplies.
- Date and time are formatted from the clock and the locale. `HandleSubmit` takes them as opaque strings.
- Real timers are not modelled, so neither are their scheduling, cancellation on unmount, or the 1000 ms statistics animation. Timers are events fired by explicit method calls.
- React's batching of state updates and its stale closures are not modelled. Each handler applies its updates at once, in the order they are written. The 3000 ms close uses whatever state exists when it fires.
- Page-level effects are not modelled beyond the scroll lock, which is a flag. This covers other DOM mutation, hover styling through `e.target.style`, injected style tags, the `IntersectionObserver` that starts animations, and all animation variants and delays.
- The presentational components carry no decisions, so they are not part of this model. These are the testimonials and their DOM cloning, the HVAC, Plumber, ELV, about, footer and navigation sections, the app shell, and the contact page's `ContactInfo`, `SocialButton` and `Footer`.
- Numbers.ToInteger: reads only optionally-signed decimal integers, because full JavaScript number conversion involves floating point. "-1.5", "-1e3" and "-Infinity" compare below 0 in JavaScript but count as not negative here.
- Gallery.Project: a category is modelled as absent or a string. `None` stands for both `undefined` and `null`, which `filter(Boolean)` drops and `=== filter` never matches alike. Numbers and objects as categories are not modelled, because they would need a dynamic value type.
- Gallery.GalleryView.DataChanged: sets `data` and `isLoading` together. In the component, one render can show new data while `isLoading` still has its old value, until the effect runs.
- Console logging (`console.error` in Hire.jsx and `console.log` in contact.jsx) is not modelled; it changes no state.
- Gallery.GalleryView.MouseEnter: requires a shown index, because only a rendered item can be entered. Keyboard focus on items has no handler and is not modelled.

Behaviour of the code worth knowing:

- The phone check deletes only whitespace before applying `^[\+]?[1-9][\d]{0,15}$`. So the field's own placeholder is refused (`Hire.PlaceholderPhoneRejected`), and "5" is accepted.
- After 'OK' the fields stay filled until the modal closes, 3000 ms later or when the user closes it.
- The carousel has no pause.
- Manual navigation does not restart the 9000 ms interval.
