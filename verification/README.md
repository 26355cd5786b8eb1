# Site script: contact form, reveal-on-scroll, card stagger, menu toggle

A Dafny model of the rule-bearing parts of the site's client-side script
`js/main.js`:

- **Contact-form validator** (`Text`, `Email`, `ContactForm`): each of the three
  inputs is trimmed with ECMAScript's `String.prototype.trim` and checked on its
  own. The name needs at least 2 characters. The email must match
  `^[^\s@]+@[^\s@]+\.[^\s@]+$`. The message needs at least 10 characters. Each
  check writes or clears its own inline error text, and the attempt fails when
  any check fails.
- **Submit outcome** (`ContactForm`): a failed attempt shows "Please fix the
  issues above and try again." in `#b91c1c` and stops there. A passing attempt
  shows "Sending..." in `#333` and schedules a completion. The completion shows
  "Thanks — we received your message." in `#1f9d55` and resets the inputs. The
  900 ms timer is an explicit `Complete` step. The form counts the completions
  that are scheduled and have not yet fired.
- **Reveal-once tracker** (`Reveal`): this is the IntersectionObserver callback.
  An intersecting entry gives its target the `in-view` class and stops observing
  it. Any other entry changes nothing.
- **Card stagger** (`Cards`): the card at position `idx` gets
  `transition-delay: <idx*90>ms`.
- **Menu toggle** (`Menu`): a click sets that button's `aria-expanded` to
  `"false"` exactly when it read `"true"`, and to `"true"` otherwise. It also
  toggles the shared navigation's `open` class. Every toggle button shares the
  one navigation, so on a page with two buttons the attributes and the
  navigation can disagree (`Menu.TwoTogglesCanDisagree`).

Whitespace is the set that both `trim` and the regex class `\s` use: the
WhiteSpace and LineTerminator productions of ECMA-262, sections 12.2 and 12.3.
The Unicode category Zs is written out in full. Strings are `seq<char>`.

## Notes on the code

- The code has no separate "validating" status. Validation runs inside the
  synchronous handler, so only the four visible states are modelled.
- After a success the status stays on the thanks message. The code never
  returns it to an idle state.
- An error slot is modelled as the text the code writes into it. The empty
  string means no error.

## Model

| member | source | states |
|---|---|---|
| Text.IsWhitespace | js/main.js:66-80 | The characters that `trim()` removes and `\s` matches: tab, vertical tab, form feed, space, no-break space, zero-width no-break space, the rest of Unicode category Zs, LF, CR, LS and PS. `Text.Trim` and `Email.PatternCharacters` give it meaning. |
| Text.Trim | js/main.js:66-80 | The result is the slice of the input left after cutting a whitespace prefix and a whitespace suffix. It has no whitespace at either end. This is the reference definition `IsTrimOf`. |
| Text.TrimOfIsUnique | js/main.js:66-80 | At most one string is a trim of a given input, so the reference definition fixes what `trim()` returns. |
| Text.TrimIdempotent | js/main.js:66-80 | Trimming an already trimmed value changes nothing. |
| Text.TrimIgnoresPadding | js/main.js:66-80 | Adding any whitespace before or after a value does not change its trim. |
| Text.TrimEmptyIffBlank | js/main.js:66 | The trim is empty exactly when the input is all whitespace. That is the case the `!name.value.trim()` test catches. |
| Text.TrimKeepsSolidText | js/main.js:80 | An input with no whitespace is its own trim. |
| Text.TrimNoLonger | js/main.js:80 | Trimming never makes a value longer. |
| Text.TrimKeepsAbsentChar | js/main.js:73 | A character that is absent from the input is also absent from its trim. |
| Email.ValidateEmail | js/main.js:108-111 | The `validateEmail` helper, written as a decision procedure over the position of the first `@`. Its meaning is given by `Email.ValidateEmailMatchesPattern`: it accepts exactly the strings the anchored pattern matches. |
| Email.ValidateEmailMatchesPattern | js/main.js:108-111 | `validateEmail` accepts a string exactly when it splits as `L@D.T`, with `L`, `D` and `T` non-empty runs of characters that are neither `@` nor whitespace. `D` may contain dots. |
| Email.ValidateEmailSound | js/main.js:108-111 | Every string the validator accepts has the `L@D.T` shape. |
| Email.ValidateEmailComplete | js/main.js:108-111 | Every string of the `L@D.T` shape is accepted. |
| Email.PatternCharacters | js/main.js:110 | In a matching string, no character is whitespace and the separating `@` is the only `@`. |
| Email.PatternHasNoWhitespace | js/main.js:110 | A matching string contains no whitespace. |
| Email.RejectsMissingAt | js/main.js:110 | A string with no `@` is rejected. |
| Email.RejectsSecondAt | js/main.js:110 | A string with two or more `@` is rejected. |
| Email.RejectsWhitespace | js/main.js:110 | A string with whitespace anywhere in it is rejected. |
| Email.RejectsNoDotAfterAt | js/main.js:110 | A string with no `.` after its `@` is rejected. |
| Email.AcceptsShortAddress | js/main.js:110 | `"a@b.co"` is accepted. |
| ContactForm.Validate | js/main.js:64-85 | The name error is set iff the trimmed name is shorter than 2. The empty-string test is subsumed. The email error is set iff the trimmed email fails the pattern. The message error is set iff the trimmed message is shorter than 10. `hasError` holds iff some slot is non-empty, and iff some check fails. |
| ContactForm.ValidateSlotsIndependent | js/main.js:64-85 | Each error slot depends only on whether its own field passes. Two inputs that agree on all three checks get the same verdict. |
| ContactForm.ValidateIgnoresPadding | js/main.js:66-85 | Whitespace around any one input never changes the verdict. |
| ContactForm.BlankFieldsRejected | js/main.js:66-85 | All-whitespace inputs set all three error texts. |
| ContactForm.EmptyFailsEveryCheck | js/main.js:66-85 | Empty inputs fail all three checks. |
| ContactForm.SolidTextAtThresholdAccepted | js/main.js:66-85 | A 2-character name and a 10-character message, both without whitespace, pass their checks. |
| ContactForm.ShortNameRejected | js/main.js:66-71 | A name under 2 characters fails, however it is trimmed. |
| ContactForm.ShortMessageRejected | js/main.js:80-85 | A message under 10 characters fails, however it is trimmed. |
| ContactForm.FirstSubmitFails | js/main.js:64-92 | Submitting the untouched form sets all three error texts and fails, with nothing scheduled. |
| ContactForm.BlankNameFails | js/main.js:66-71 | An all-whitespace name fails its check. |
| ContactForm.AddressWithoutAtFails | js/main.js:73-78 | An email input with no `@` fails its check. |
| ContactForm.Status.Message | js/main.js:89-101 | The status line's text in each state: the fix-it line, "Sending..." and the thanks line, as written by the handler and the timer. `ContactForm.SubmitFailureKeepsInput` and `ContactForm.SubmitThenCompleteSucceeds` tie each text to the step that shows it. |
| ContactForm.Status.Color | js/main.js:90-101 | The status line's colour in each state: `#b91c1c`, `#333` and `#1f9d55`. The same two lemmas tie each colour to its step. |
| ContactForm.Submit | js/main.js:87-99 | Submitting never changes the inputs. The error slots are the validation's. The status becomes Failed exactly when some check fails, and Sending otherwise. Only Sending schedules a completion. |
| ContactForm.Complete | js/main.js:99-103 | The timer callback clears every input, shows the thanks status and uses up one scheduled completion. It leaves the inline error texts as they were. |
| ContactForm.SubmitThenCompleteSucceeds | js/main.js:94-103 | A passing attempt first shows "Sending..." in `#333`. After its completion it shows "Thanks — we received your message." in `#1f9d55`, with the inputs cleared and no error text. |
| ContactForm.SubmitFailureKeepsInput | js/main.js:88-92 | A failing attempt shows "Please fix the issues above and try again." in `#b91c1c`. It schedules nothing and keeps every input. |
| ContactForm.ResubmitAfterResetFails | js/main.js:64-103 | Submitting again right after a completed submission sets all three error texts. |
| ContactForm.GoodSubmissionSucceeds | js/main.js:56-103 | Some inputs end in the thanks status with every input cleared: a solid name of at least 2 characters, an address of the `L@D.T` shape, and a solid message of at least 10 characters. "Jo", "x@y.com" and "1234567890" are such inputs. |
| ContactForm.BadSubmissionFails | js/main.js:56-92 | Some inputs fail with all three errors set and every input kept: a blank name, an address without `@`, and a message under 10 characters. "", "bad" and "short" are such inputs. |
| ContactForm.GoodSubmissionExample | js/main.js:56-103 | The inputs "Jo", "x@y.com" and "1234567890" reach "Sending...", and after the completion the thanks status with every input cleared. |
| ContactForm.BadSubmissionExample | js/main.js:56-92 | The inputs "", "bad" and "short" fail with all three error texts set and the inputs kept. |
| Reveal.Start | js/main.js:43-45 | Registration observes every element and reveals none. |
| Reveal.OnEntry | js/main.js:34-39 | An intersecting entry reveals its target and stops observing it. A non-intersecting entry changes nothing. No other element is touched. |
| Reveal.OnEntries | js/main.js:33-41 | After a batch, the revealed set is the old one plus the intersecting targets. The observed set is the old one minus those targets. |
| Reveal.RevealedOnlyGrows | js/main.js:33-41 | The revealed set only grows and the observed set only shrinks. |
| Reveal.NonIntersectingIgnored | js/main.js:35 | A batch with no intersecting entry leaves both sets unchanged. |
| Reveal.CallbackKeepsConsistent | js/main.js:33-45 | Every registered element stays either observed or revealed, and never both. |
| Reveal.RevealIsFinal | js/main.js:36-38 | A revealed element is not observed. No deliverable batch names it, and it stays revealed. |
| Reveal.DeliveryOrderIrrelevant | js/main.js:34-40 | The outcome of a batch does not depend on the order in which its entries are delivered. |
| Reveal.RunKeepsRevealed | js/main.js:33-45 | Over any sequence of batches the host can deliver, the partition into observed and revealed holds. A revealed element stays revealed and unobserved. |
| Reveal.RunSplit | js/main.js:33-45 | A run splits at any batch into the run before it, that batch, and the run after it. The invariant holds at the split. |
| Reveal.FirstHitRevealsForGood | js/main.js:35-38 | An element that intersects in any batch is revealed at the end of every later run. |
| Cards.Decimal | js/main.js:50 | The decimal rendering of a number is a non-empty string of digits with no leading zero. |
| Cards.DecimalRoundTrip | js/main.js:50 | Reading the decimal rendering back gives the number. |
| Cards.TransitionDelay | js/main.js:50 | The template literal `${idx * 90}ms`. Its meaning is given by `Cards.TransitionDelayReadsBack`: it reads back as `idx * 90` milliseconds. |
| Cards.TransitionDelayReadsBack | js/main.js:50 | The style of the card at position `idx` reads back as `idx * 90` milliseconds. |
| Cards.Stagger | js/main.js:48-51 | There is one style value per card, and each reads back as its position times 90 ms. |
| Cards.StaggerStrictlyIncreasing | js/main.js:48-51 | A card later in the list starts strictly later. |
| Menu.Flip | js/main.js:13-14 | After a click the attribute is `"true"` or `"false"`. It is `"false"` exactly when it read `"true"`. |
| Menu.Click | js/main.js:12-16 | The clicked button's attribute flips, every other button's attribute is unchanged, and the navigation's `open` flag toggles. |
| Menu.ClickTwiceRestores | js/main.js:13-15 | Two clicks on one button restore both the attribute and the navigation, once the attribute reads `"true"` or `"false"`. |
| Menu.ClickTwiceNormalises | js/main.js:13-15 | An absent or unexpected attribute reads `"false"` after two clicks. The navigation is back where it was. |
| Menu.SingleToggleStaysInSync | js/main.js:11-17 | With one toggle button, once the attribute and the navigation agree on "open", every click keeps them agreeing. |
| Menu.TwoTogglesCanDisagree | js/main.js:9-17 | With two toggle buttons, clicking each once leaves both saying `"true"` while the navigation is closed. |

## Left out

- Year stamping (js/main.js:5-6): it depends on `Date` and the host clock.
- Smooth scrolling (js/main.js:21-29): `querySelector` and `scrollIntoView` are browser behaviour.
- The observer's 0.15 threshold and viewport geometry (js/main.js:32): the host computes these in floating point. The model receives entries as the host delivers them.
- DOM lookups, `classList`, `textContent` and `style` writes: these are record fields, such as the error texts and the `revealed` set.
- Real time: the 900 ms delay is the `Complete` step. Any number of completions may be pending, and `Submit` and `Complete` may interleave in any order. What the browser does with a timer after navigating away is not modelled.
- The markup: `reset()` is taken to empty every input, since the inputs carry no default value. The status text before the first submit is modelled as empty.
- UTF-16 code units: `.length` counts characters of `seq<char>`, not code units.
- Cards.Decimal: JavaScript numbers are doubles, and a template literal prints values from 10^21 up in exponent form ("1e+21"). The model always prints plain digits. No card reaches that, since a NodeList has fewer than 2^32 entries and so `idx * 90` stays below 4·10^11.
- CSS transitions themselves: only the `transition-delay` value is modelled.
