# Live wallpaper theme and clock state, in Dafny

This project models `assets/main.js`, the single script of a Wallpaper Engine
web wallpaper. The script shows a clock and a date and keeps a day/night theme
on the page. The host can force the theme and can set an accent colour.

The model keeps the script's state in one class, `WallpaperState.Wallpaper`:
- the global `currentTheme`, as `mode`;
- `document.body.classList`, as the set `bodyClasses`;
- the `--custom-color` style property, as `customColorProp`;
- the time, date and indicator text regions, as `Option<string>` (None while the element is absent);
- the global `currentTime`.

Each update function of the script is a method of that class. The clock is an
`Instant` value passed in as a parameter. The pure parts live in four modules:
- `Theme`: resolving day or night and the indicator label.
- `ColorScheme`: splitting and parsing the colour, and formatting it.
- `Clock`: the time and date texts and the hourly re-resolution.
- `Strings`: the JavaScript string primitives the script uses.

Each method is proved against a specification function of the old state.
Lemmas then prove what the script promises about those functions: exclusive
classes, the frame, idempotence, round trips of the formatted texts, and the
edge-triggered boundary.

Five behaviours of the code that are easy to misread; the model follows the code:
- An unrecognised mode value, such as `foo`, is not treated as automatic. It
  is used verbatim and adds the class `theme-foo`, with neither a day nor a
  night class (`Theme.UnrecognisedModeVerbatim`). Only the indicator falls
  back to the text 自动 (`Theme.UnrecognisedIndicatorSaysAuto`).
- A mode other than 'auto' that contains ASCII whitespace, such as `foo bar`,
  makes `classList.add` throw after the three theme classes were removed
  (`Theme.WhitespaceModeThrows`). The page is left with none of the three theme classes, and
  the rest of the caller is skipped: the colour of the same property event
  (`WallpaperState.IntakeStopsOnInvalidTheme`), or the first clock and label
  paint of start-up (`WallpaperState.Wallpaper.InitializePage`).
- The class list is not rewritten to exactly one theme class. Only
  `theme-day`, `theme-night` and `theme-auto` are removed, so a `theme-foo`
  left by an earlier unrecognised mode survives
  (`Theme.StaleUnrecognisedClassSurvives`).
- The colour is split on a single space, not on any whitespace, and the
  channels are not limited to 0..255.
- Start-up is not deduplicated: when the document is past 'loading' but
  `DOMContentLoaded` has not fired yet (a deferred or module script),
  `initializePage` runs at once (assets/main.js:184) and again on the event
  (assets/main.js:178). While the document is still loading, the two
  registrations are the same listener and it runs once.

## Model

| member | source | states |
|---|---|---|
| Strings.NatToString | assets/main.js:75-77 | `toString` of a number gives at least one decimal digit, all digits, with no leading zero except for 0 |
| Strings.IntToStringReadsBack | assets/main.js:82-87 | the year's text parses back to the year; a negative year is written as '-' followed by the text of its magnitude |
| Strings.ParseInt | assets/main.js:52-54 | `parseInt` gives NaN exactly when the field is empty or does not start with a digit |
| Strings.ParseIntOfNatToString | assets/main.js:52-56 | `parseInt` reads back the decimal text of any number, and it stops at the first non-digit |
| Strings.ParseNatToString | assets/main.js:52-56 | `parseInt` of a number's decimal text gives the number back |
| Strings.PadStart | assets/main.js:75-77 | `padStart` gives a string as long as the width, or the input's length when that is longer |
| Strings.PadStartShape | assets/main.js:75-77 | the padded string ends with the input, and every character added before it is the fill |
| Strings.Pad2Chars | assets/main.js:75-77 | below 100, the padded field is the tens digit followed by the units digit |
| Strings.Pad2ReadsBack | assets/main.js:75-77 | below 100, the padded field has two digits and parses back to the number |
| Strings.Split | assets/main.js:51 | `split` returns at least one field, and no field contains the separator |
| Strings.JoinSplit | assets/main.js:51 | joining the fields of a split with the separator restores the input |
| Strings.SplitJoin | assets/main.js:51 | splitting a join of separator-free fields returns those fields |
| Strings.SplitThree | assets/main.js:51 | three separator-free fields joined by the separator split back into exactly those three fields |
| Theme.ThemeThrowsIff | assets/main.js:34-44 | adding the theme token throws exactly when the mode is not 'auto' and contains ASCII whitespace |
| Theme.NoThrowForRecognised | assets/main.js:34-44 | the modes 'auto', 'day' and 'night' never make the rewrite throw |
| Theme.ThemeExclusive | assets/main.js:32-44 | for 'auto', 'day' or 'night', exactly one of `theme-day`/`theme-night` is set afterwards, and it is the resolved one |
| Theme.AutoFollowsHour | assets/main.js:37-40 | in auto mode `theme-day` is set iff 6 <= hour < 18, `theme-night` iff not, and `theme-auto` is set |
| Theme.ExplicitIgnoresHour | assets/main.js:34-44 | an explicit day or night mode gives the same classes at every hour: its own class, and no auto marker |
| Theme.AutoMarkerIff | assets/main.js:32-44 | `theme-auto` is present afterwards iff the mode is 'auto' |
| Theme.ThemeFrame | assets/main.js:32-44 | every class other than the three theme names and `theme-<mode>` keeps its membership |
| Theme.ThemeIdempotent | assets/main.js:32-44 | two rewrites with the same mode and hour give the same classes as one |
| Theme.UnrecognisedModeVerbatim | assets/main.js:32-44 | an unrecognised mode leaves neither the auto marker nor a day or night class; it adds `theme-<mode>` when the mode has no whitespace, and otherwise leaves only the removal |
| Theme.WhitespaceModeThrows | assets/main.js:32-44 | the mode 'foo bar' throws, leaving the old classes minus the three theme classes |
| Theme.StaleUnrecognisedClassSurvives | assets/main.js:32-44 | after 'foo' and then 'day', the classes are {`theme-foo`, `theme-day`} |
| Theme.IndicatorAgreesWithTheme | assets/main.js:158-173 | for a recognised mode the label is 白天 or 夜晚, matching the day class the rewrite sets, and is wrapped as 自动 (…) exactly when `theme-auto` is set |
| Theme.UnrecognisedIndicatorSaysAuto | assets/main.js:170-171 | an unrecognised mode is labelled 自动, although its classes carry no auto marker and no day or night class |
| ColorScheme.ReadNumberText | assets/main.js:56 | the text of a parsed channel, "NaN" included, reads back as the same channel |
| ColorScheme.RgbShape | assets/main.js:56 | the colour template wraps any three channel texts in `rgb(` and `)`, separated by ", " |
| ColorScheme.RgbTextFields | assets/main.js:56-57 | the property is `rgb(` + the three channel texts separated by ", " + `)`, each written as parsed without clamping |
| ColorScheme.ParseColorOfDecimals | assets/main.js:51-54 | an input "R G B" of decimal numbers parses to exactly R, G and B |
| ColorScheme.CustomClassIff | assets/main.js:60-64 | `custom-color` is present afterwards iff some channel is not 255; no other class changes |
| ColorScheme.ParseWhite | assets/main.js:51-54 | "255 255 255" parses to three channels of 255 |
| ColorScheme.ParseDark | assets/main.js:51-54 | "10 20 30" parses to the channels 10, 20 and 30 |
| ColorScheme.WhiteIsNotCustom | assets/main.js:51-64 | "255 255 255" is not custom: it writes rgb(255, 255, 255) and removes the class |
| ColorScheme.DarkIsCustom | assets/main.js:51-64 | "10 20 30" is custom: it writes rgb(10, 20, 30) and adds the class |
| ColorScheme.NonNumericIsCustom | assets/main.js:51-60 | with `parseInt` modelled as a decimal digit prefix, any input that is empty or does not start with a digit gives a NaN red channel, and so counts as custom |
| Clock.TimeTextReadsBack | assets/main.js:74-79 | with fields below 100, the time text has 8 characters with colons at 2 and 5, and each field parses back to its number |
| Clock.TimeExample | assets/main.js:75-78 | 9:05:00 is shown as "09:05:00" |
| Clock.DateTextReadsBack | assets/main.js:81-88 | the date text is the unpadded year, the two-digit one-based month and the two-digit day joined by '-', then a space and the weekday name; each number parses back |
| Clock.DateExample | assets/main.js:81-88 | Tuesday 2024-03-05 is shown as "2024-03-05 星期二" |
| Clock.TickAtEdge | assets/main.js:91-93 | on an auto-mode 00-minute 00-second tick the classes follow the hour; on every other tick they are unchanged |
| Clock.TickAfterResolveIsStable | assets/main.js:91-93 | a tick right after a rewrite for the same mode and hour changes nothing |
| Clock.MissedEdgeKeepsStaleTheme | assets/main.js:91-93 | a tick at 18:00:01 that missed the 18:00:00 edge keeps the day theme set at 17:00 |
| WallpaperState.ThemeAndColorCommute | assets/main.js:13-22 | the theme rewrite and the colour toggle commute, so when both run their order does not change the classes; when the theme add throws, the order decides whether the colour runs at all |
| WallpaperState.ColorBeforeThrowWouldSurvive | assets/main.js:13-22 | with 'a b' and '10 20 30' in one event, running the colour first would leave `custom-color` after the throw, while the handler's theme-first order never adds it |
| WallpaperState.IntakeStopsOnInvalidTheme | assets/main.js:13-22 | a `forcetheme` value with whitespace throws: the theme classes are removed, and a `schemecolor` in the same event changes neither the property nor the classes |
| WallpaperState.IntakeForcesTheme | assets/main.js:13-22 | a `forcetheme` event leaves the classes of the theme rewrite for its value, marks auto iff the value is 'auto', and an event with neither key changes no class |
| WallpaperState.Wallpaper.constructor | assets/main.js:4-5 | the script starts in mode 'auto', with no colour property and no text regions |
| WallpaperState.Wallpaper.UpdateTheme | assets/main.js:27-47 | the classes become the theme rewrite of the old classes for the current mode and hour, and it reports failure exactly when adding the token throws; nothing else changes |
| WallpaperState.Wallpaper.UpdateColorScheme | assets/main.js:50-65 | the property becomes the rgb text of the parsed input, and the classes become the colour toggle of the old ones |
| WallpaperState.Wallpaper.UpdateTime | assets/main.js:68-94 | records the instant, rewrites only the regions that exist with the time and date texts, and the classes follow the edge rule |
| WallpaperState.Wallpaper.UpdateThemeIndicator | assets/main.js:154-175 | an existing indicator gets the label for the mode and hour; an absent one stays absent |
| WallpaperState.Wallpaper.ApplyUserProperties | assets/main.js:9-23 | the mode, classes and colour property become the intake functions of the old state, which skip the colour when the theme rewrite throws, and failure is reported exactly then; the regions are untouched |
| WallpaperState.Wallpaper.InitializePage | assets/main.js:120-144 | the classes are the theme rewrite for the instant; unless that throws, all three regions hold the time, date and label for the instant, and if it throws they keep the template's placeholders and the recorded time is unchanged |

## Left out

- Page template construction (`createGitHubSVG`, `createDecorations`, the `innerHTML` markup, assets/main.js:97-139): static markup. `InitializePage` models only its effect: the three text regions exist.
- Timers (`setInterval`, assets/main.js:147-148): each periodic task is a method the host calls with an instant.
- Start-up registration (assets/main.js:178-185): event plumbing. It runs `initializePage` twice when the script runs after 'loading' but before `DOMContentLoaded`; the second, identical registration while loading is ignored by `addEventListener`.
- The exception thrown by `classList.add` for a token with whitespace is modelled as a `false` result of `UpdateTheme`, `ApplyUserProperties` and `InitializePage`; where it goes in the host, and the timers that a failed `initializePage` never arms, are not modelled.
- `console.log` calls: output with no effect on the state.
- `new Date()` and local-time rules: the instant is a parameter. `updateTheme` and `updateThemeIndicator` read the clock themselves. The model gives them the caller's hour. Inside `updateTime`, `updateTheme` gets the same hour as the tick.
- Strings.ParseInt: models `parseInt` as "value of the decimal digit prefix, else NaN". It leaves out leading whitespace, signs, "0x" radix detection, and the loss of precision above 2^53.
- Strings.NatToString: leaves out JavaScript's exponent form (such as "1e+21") for very large numbers.
- Property values are strings. An entry whose `value` is missing or not a string is not modelled: it would give the class `theme-undefined`, or a TypeError from `split` (assets/main.js:51).
- The CSS layer that reads the classes and `--custom-color` is not part of this model.
