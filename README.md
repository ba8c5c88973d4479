# ChartAI page logic, modelled in Dafny

This project models the decision logic inside the `ChartAI` class of the
chart-analysis landing page (`script.js`). It covers three parts.

- **Upload admission and the upload widget.** `handleFileUpload` admits a
  file only if its media type starts with `image/` and it is at most 10 MiB.
  An admitted file puts the upload area into its loading state. Once the read
  succeeds, the file's data URL goes into the single stored-image slot
  `lastImageDataUrl`. A successful analysis renders the results and resets the
  upload area to idle. A failure shows the error panel, and "Try Again" goes
  back to idle. The "Get Detailed Analysis" button only reads the slot.
- **The results projection of `displayResults`.** This covers:
  - the badge text;
  - the buy/sell/hold class shared by the badge and the card;
  - the confidence line;
  - the reasoning line;
  - the ordered rows of the details grid.
- **`updateAuthUI`.** It decides which of the sign-in, get-started and logout
  buttons are visible.

Files:

- `wrappers.dfy`: `Option` (JavaScript's missing value) and `Settled` (how an
  asynchronous call settled).
- `text.dfy`: the JavaScript string built-ins the page uses, each written out
  over `seq<char>` with its properties proved:
  - `startsWith` and `includes`;
  - `trim`, using ECMAScript's full WhiteSpace and LineTerminator set;
  - ASCII `toLowerCase` and `toUpperCase`;
  - `replace(/_/g, ' ')`;
  - `join`;
  - integer-to-decimal rendering.
- `render.dfy`: the analysis record and the pure projection `Project` from a
  record to a `View`, with lemmas about each part. JavaScript truthiness is
  written out: a missing string and `""` are both false, and so are a missing
  confidence and `0`.
- `chart_ai.dfy`: the `ChartAI` class.
  - Its fields are the stored-image slot, the widget state, the results panel,
    the report button and panel, and the three auth buttons.
  - Its methods are the event handlers. The results panel is filled in place,
    and the details grid is a field that each render clears and then fills by
    appending rows, the indicator rows in a loop.
  - The file also holds three whole-page scenarios.
  - How the file reader and the remote calls settle is passed in as a
    `Settled` parameter.

The comment on line 402 of `script.js` reads "Ensure text is not empty if strength/signal are
missing", and the code meets it: with both missing the badge is "N/A"
(`Render.BadgeTextFallback`), and with the signal missing the badge ends in
"N/A", so it is never empty (`Render.BadgeTextEmptyIff`). Only the broader
reading "the badge is never empty" fails: a signal that is present but made
only of blanks, with no strength, trims to an empty badge.
`Render.BadgeTextEmptyIff` states exactly when that happens.

## Model

| member | source | states |
|---|---|---|
| Text.Contains | script.js:409-413 | `includes` as a left-to-right scan; `Text.ContainsIffOccurs` ties it to an occurrence at some offset |
| Text.TrimStart | script.js:402 | the leading half of `trim`; `Text.TrimStartShape` states what it keeps and drops |
| Text.TrimEnd | script.js:402 | the trailing half of `trim`; `Text.TrimEndShape` states what it keeps and drops |
| Text.StartsWith | script.js:260 | `startsWith` holds exactly when the prefix is no longer than the string and equals the string's first characters |
| Text.ContainsIffOccurs | script.js:409-413 | `includes` finds the word exactly when it occurs at some offset of the string |
| Text.ToLower | script.js:408 | `toLowerCase` keeps the length and lower-cases each ASCII letter in place |
| Text.LowerOfUpper | script.js:408 | lower-casing an upper-cased string equals lower-casing the original |
| Text.LowerIdempotent | script.js:408 | lower-casing twice equals lower-casing once |
| Text.ToUpper | script.js:438 | `toUpperCase` keeps the length and upper-cases each ASCII letter in place |
| Text.UnderscoresToSpaces | script.js:438 | `replace(/_/g, ' ')` keeps the length and turns exactly the underscores into spaces |
| Text.TrimStartShape | script.js:402 | trimming the front keeps a suffix, everything it drops is whitespace, and the suffix does not start with whitespace |
| Text.TrimEndShape | script.js:402 | trimming the back keeps a prefix, everything it drops is whitespace, and the prefix does not end with whitespace |
| Text.Trim | script.js:402 | `trim` leaves no whitespace at either end; the result is empty exactly when the input is all whitespace; an already trimmed string is unchanged |
| Text.TrimLeadingBlank | script.js:402 | trimming a blank followed by a trimmed string gives that string |
| Text.Join | script.js:431 | `join` of one element is that element; with more, the result starts with the first element and the separator; `Text.JoinAppend` and `Text.JoinLength` pin down the rest |
| Text.JoinAppend | script.js:431 | joining two non-empty runs is joining each with one separator between them, so every element appears in order, each later one after a separator |
| Text.JoinLength | script.js:431 | a join is as long as all elements together plus one separator between each two |
| Text.NatToDecimal | script.js:421 | the rendering of a natural number is non-empty, all digits, and has no leading zero |
| Text.IntToDecimal | script.js:421 | the rendering of an integer is non-empty and starts with '-' exactly when the integer is negative |
| Text.DecimalRoundTrip | script.js:421 | reading the rendered digits back gives the number again |
| Text.IntToDecimalInjective | script.js:421 | different integers render as different strings |
| Render.BadgeText | script.js:402 | the badge expression; `Render.BadgeTextFallback` (neither part), `Render.BadgeTextSignalOnly` (signal only), `Render.BadgeTextStrengthOnly` (strength only) and `Render.BadgeTextBoth` (both) state its value in each of the four truthiness cases, and `Render.BadgeTextEmptyIff` when it is empty |
| Render.BadgeTextFallback | script.js:402 | with neither strength nor signal the badge reads "N/A" |
| Render.BadgeTextSignalOnly | script.js:402 | with no strength the badge is the signal trimmed |
| Render.BadgeTextStrengthOnly | script.js:402 | with a strength free of end blanks and no signal the badge is the strength, one space, "N/A" |
| Render.BadgeTextBoth | script.js:402 | with both present and without blank ends the badge is strength, one space, signal |
| Render.BadgeTextEmptyIff | script.js:402 | the badge is empty exactly when the signal is present but all blanks and the strength is missing or all blanks |
| Render.ClassOf | script.js:406-416 | the `if/else` chain on the lower-cased signal; `Render.ClassOfPriority` states the outcome through occurrences, `Render.ClassOfIgnoresCase` its case independence |
| Render.ClassOfPriority | script.js:406-416 | the class is Sell exactly when the signal mentions "sell" but not "buy"; Hold exactly when it mentions "hold" and neither of the others; Buy in every other case, including a missing signal |
| Render.ClassOfBuyBeatsSell | script.js:409-412 | a signal mentioning both "buy" and "sell" is classed Buy |
| Render.ClassOfIgnoresCase | script.js:408 | upper- or lower-casing the signal does not change its class |
| Render.ConfidenceText | script.js:421 | the confidence line with `||` treating 0 as missing; `Render.ConfidenceTextDeterminesValue` states which confidences read alike |
| Render.ConfidenceTextDeterminesValue | script.js:421 | two confidence lines are equal exactly when the confidences agree once 0 counts as missing; 0 and missing both read "N/A% Confidence" |
| Render.NotAvailableIsNoNumber | script.js:421 | "N/A" is not the rendering of any integer, so a real confidence never reads like a missing one |
| Render.ReasonText | script.js:424 | the reasoning line is never empty; it is the reasoning itself when that is non-empty, else the fixed fallback |
| Render.IndicatorLabel | script.js:438 | an indicator label has the key's length, is the key with underscores turned into spaces and then upper-cased, and has no underscore and no ASCII lower-case letter |
| Render.IndicatorRows | script.js:435-442 | the rows of the indicator `forEach`; `Render.IndicatorRowsShape`, `Render.IndicatorRowsAppend`, `Render.IndicatorRowsAllPresent` and `Render.IndicatorRowsRank` state their count, order and captions |
| Render.PatternRows | script.js:430-432 | the patterns row, present only for a non-empty list, joined by ", "; `Render.DetailRowsOrdered` places it first |
| Render.DetailRows | script.js:427-456 | the grid's rows; `Render.DetailRowsOrdered` states their order and `ChartApp.AppendDetailRows` that the appending code builds them |
| Render.Project | script.js:393-463 | everything `displayResults` writes into the results panel (showing the panel and resetting the upload area are in `ChartApp.ChartAI.AnalysisSucceeded`); `Render.ProjectClassesAgree` and `Render.StrongBuyExample` state properties of it, and the lemmas of each part state the rest |
| Render.IndicatorRowsShape | script.js:436-441 | at most one row per indicator entry, each with a non-empty value and an underscore-free caption |
| Render.IndicatorRowsAppend | script.js:436-441 | the rows of two runs of entries are the rows of the first run followed by those of the second |
| Render.IndicatorRowsSnoc | script.js:436-441 | one more entry appends that entry's row, if its value is non-empty, at the end |
| Render.IndicatorRowsAllPresent | script.js:436-441 | when no value is empty, row k is entry k with its label, in the entries' order |
| Render.IndicatorLabelRank | script.js:438 | no indicator label can equal one of the fixed captions |
| Render.IndicatorRowsRank | script.js:436-441 | every indicator row ranks as an indicator row |
| Render.AppendInGridOrder | script.js:427-456 | appending rows of the next rank after rows of lower rank keeps the grid order |
| Render.DetailRowsOrdered | script.js:427-456 | the grid lists patterns, then indicators, then symbol, timeframe and risk assessment, and each fixed row appears at most once |
| Render.ProjectClassesAgree | script.js:406-418 | badge and card get the same class, which is one of buy, sell and hold |
| Render.StrongBuyExample | script.js:393-463 | a STRONG BUY reply at 82 with one pattern and one RSI indicator renders exactly "STRONG BUY", class buy, "82% Confidence", the reasoning fallback and two rows |
| Render.ExampleBadge | script.js:402 | strength "STRONG" and signal "BUY" give the badge "STRONG BUY" |
| Render.ExampleClass | script.js:406-416 | signal "BUY" is classed Buy |
| Render.ExampleConfidence | script.js:421 | confidence 82 reads "82% Confidence" |
| Render.ExampleRows | script.js:427-456 | one pattern and one "rsi" entry give a patterns row and an "RSI" row, in that order |
| ChartApp.Admit | script.js:259-268 | a file is admitted exactly when its type starts with "image/" and its size is at most 10485760; otherwise the type alert comes first, then the size alert |
| ChartApp.ChartAI.constructor | script.js:1-9 | the page starts with an empty slot, the idle widget, hidden results and report, and the auth buttons set from the first session snapshot |
| ChartApp.ChartAI.AcceptFile | script.js:259-286 | a rejected file changes neither slot nor widget and sends nothing for analysis; an admitted one that is read stores that upload's data URL, sends exactly that URL for the quick analysis and shows loading; a failed read shows the error panel, sends nothing and keeps the slot |
| ChartApp.ChartAI.AnalysisSucceeded | script.js:393-463 | the panel shows the projection of the reply, the grid holds exactly the reply's rows whatever it held before, results are visible, and the widget is idle again; the slot is not touched |
| ChartApp.ChartAI.AnalysisFailed | script.js:283-286 | the widget shows the failure message; the slot is not touched |
| ChartApp.ChartAI.Retry | script.js:95-98 | "Try Again", present only on the failure panel, returns the widget from the error state to idle; the slot is not touched |
| ChartApp.ChartAI.RequestDetailedReport | script.js:22-45 | with no stored image nothing is sent and the upload alert is raised; otherwise the stored image is sent, and the report is shown or the failure alert is raised; the button ends enabled with its original text on every path |
| ChartApp.ChartAI.CloseReport | script.js:49-56 | closing hides the report and empties its content |
| ChartApp.ChartAI.UpdateAuthUI | script.js:196-210 | a session hides sign-in and get-started and shows logout, no session the reverse; logout is always shown exactly when sign-in is hidden |
| ChartApp.AppendDetailRows | script.js:429-456 | appending row by row after the existing grid adds exactly the specified row sequence |
| ChartApp.AppendPatternsRow | script.js:430-432 | appends the patterns row exactly when the list is non-empty |
| ChartApp.AppendOptionalRow | script.js:444-455 | appends a symbol, timeframe or risk row exactly when its value is truthy |
| ChartApp.AppendIndicatorRows | script.js:435-442 | the `forEach` appends exactly the rows of the indicator entries, in order, after the existing rows |
| ChartApp.UploadThenDetailedReport | script.js:259-281 | after an admitted upload and a successful analysis, the detailed report request carries the same image the quick analysis was sent, that upload's data URL, and the widget is idle |
| ChartApp.FailureRetryAndRejection | script.js:259-286 | a failed analysis, a retry and a rejected file leave the stored image alone; the rejected file starts no analysis, and the report still carries the first upload's data URL |
| ChartApp.RenderTwice | script.js:427 | rendering the same reply twice leaves the same grid and panel: the second render meets a grid already holding the first render's rows, and the clear keeps them from accumulating |

## Left out

- The file reader (`fileToDataUrl`, script.js:302-309) is not performed. Its result is a `Settled` parameter, and the data URL is an opaque string.
- The remote calls `analyzeChart` and `getDetailedAnalysis` (script.js:311-391) and `JSON.parse` are not performed. Their result is a parsed `Analysis` or a failure, handed to the class's methods.
- The Supabase calls (`signInWithPassword`, `signUp`, `signOut`, `onAuthStateChange`, `getSession`) and the sign-in, sign-up and logout modals are not modelled. They belong to an external auth backend. Only the visibility mapping of `updateAuthUI` is modelled, with the session as a flag.
- DOM mechanics are not modelled. This covers the `innerHTML` templates, listener rebinding, drag-and-drop class toggling, `scrollIntoView`, `alert` as a dialog, `console.error` and the smooth-scroll anchors. Alerts are returned as strings.
- Async interleavings are not modelled, for example a detailed request still running while a new file is uploaded. Each handler runs to completion in the model.
- The transient "Generating Report..." label and the disabled state while a detailed request is pending are not visible in the model. Only the state after the handler settles is stated.
- Text.ToLower, Text.ToUpper: only ASCII letters change case, not full Unicode case mapping.
- `Object.entries` moves integer-like keys to the front and cannot yield duplicate keys. The model takes the indicator entries as an ordered list in the order the reply gives them.
- Render.ConfidenceTextDeterminesValue: confidences are unbounded integers. JavaScript numbers are doubles, so the model does not cover fractional values, NaN or Infinity. Magnitudes of 10^21 or more would render in exponent notation there, and integers beyond 2^53 are not distinct values there.
- Non-string indicator values are not modelled. In the source, truthy ones go through `toString`, and falsy ones (null, 0, false) are skipped by `if (value)` at script.js:437, as the model skips "".
- The `Analysis` record's fields are taken as well-typed. In the source, a truthy non-string `signal` makes `toLowerCase` throw after the badge text is written (script.js:403, 408), and a truthy string `patterns` makes `join` throw (script.js:431). The catch at script.js:283-286 then shows the error panel over a partly updated card. `ChartApp.ChartAI.AnalysisSucceeded` updates the panel all at once, so these partial updates are not modelled.
