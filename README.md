# Quiz and exam ingestion, modelled in Dafny

This project models the quiz layer of a fork of the Excalidraw
whiteboard. The layer takes exam questions from a web API and turns each
one into a "slide" of canvas elements: the question text, one
rectangle-with-label per option, an explanation card and a background
rectangle. Question and option text may hold LaTeX. LaTeX is split out of
the text and rendered to SVG images, and those images are cached. Six
named style templates can restyle every quiz element already on the
canvas. Clicking an option colours it green or red, and clicking an
answer button toggles the explanation cards it names.

The project is organised in one module per concern:

- **Wrappers**: `Option`.
- **Strings**: the JavaScript string built-ins the code leans on. These are
  `trim` with the JavaScript white-space set, `replace(/\s+/g, " ")`,
  global and first-occurrence `replace`, `toLowerCase` on ASCII, and
  decimal printing.
- **HtmlText**: tag removal, the six-entity decoder and removal of the
  inline wrappers `\(` `\)` `\[` `\]`.
- **QuizText**: `sanitizeQuizText` and its LaTeX-to-text pass.
- **LatexUtils**: `normalizeLatexInput`, `stripLatexDelimiters`,
  `containsLatex` and the segmenting scanner behind `splitLatexSegments`.
  The scanner is written as a `while` loop proved equal to a recursive
  specification.
- **SvgDimensions**: `parseSvgDimension`, JavaScript `Number`,
  `split(/\s+/)` and `getSvgDimensions`.
- **SvgNamespaces**: `ensureSvgNamespaces`.
- **LatexRender**: the two render functions as methods of a class that
  owns the two caches.
- **Elements**: the element record, `Array.find` by id, and fresh ids.
- **QuizTemplates**: the template table, the stored-template cell,
  `isQuizOptionLabel` and `applyQuizTemplate`.
- **ExamAnswers**: `resolveCorrectIndex`, `resolveExplanationText` and
  `estimateExplanationHeight`.
- **QuizFlow**: `createQuizContentElement`, including the inline flow of
  text and formula pieces.
- **ExamImport**: the per-question slide builder, the
  `actionImportExamQuestions` action and `actionSetQuizTemplate`.
- **ExplanationCard**: the state machine of the script inside an
  explanation card, which types the text in 60 characters per tick.
- **QuizClick**: the app's `handleQuizOptionPointerUp`.

Mutable state is modelled as classes, one for each kind of state:

| class | state it holds |
|---|---|
| `LatexRenderer` | the two render caches |
| `IdSource` | the counter that stands for `randomId` |
| `QuizTemplateStore` | the current template and its `localStorage` copy |
| `ExamImporter` | the module-level `quizSlideAnchors` |
| `CardScript` | the card script's state |
| `Scene` | the canvas elements |

Each loop of the source is a `while` loop. Each method is proved equal to
a function on values, and the properties are proved about those
functions.

Three behaviours of the code are worth knowing when reading the model:

- **Render errors abort the import.** No render call is inside a `try`.
  A rejected render, for example an SVG image that fails to decode,
  therefore ends the whole import in the action's `catch`. The action
  then shows the error, and the anchors of the slides finished before
  the failure stay in `quizSlideAnchors` (`ExamImport.SlidesFailed`,
  `ExamImport.ImportOutcomes`).
- **Numbers are tried 0-based first.** A number is read as a 0-based
  index when it is in range, and only otherwise as 1-based
  (`ExamAnswers.NumberResolution`).
- **Bare letters are not range-checked.** A bare letter `a`-`d` is
  accepted whatever the number of options
  (`ExamAnswers.BareLetterUnchecked`).

File paths below are relative to the repository root.

## Model

| member | source | states |
|---|---|---|
| Strings.Trim | excalidraw/packages/excalidraw/utils/quizText.ts:51 | `trim()` leaves no JavaScript white space at either end and never lengthens the text |
| Strings.TrimIsSlice | excalidraw/packages/excalidraw/utils/quizText.ts:51 | the trimmed text is one contiguous slice of the input |
| Strings.TrimEmptyIff | excalidraw/packages/excalidraw/utils/quizText.ts:51 | trimming gives the empty string exactly when the input is all white space |
| Strings.CollapseSpaces | excalidraw/packages/excalidraw/utils/quizText.ts:51 | definition of `replace(/\s+/g, " ")`: empty exactly for empty input, and it starts with white space exactly when the input does; properties in CollapseShape and CleanSpaces |
| Strings.CollapseShape | excalidraw/packages/excalidraw/utils/quizText.ts:51 | after `replace(/\s+/g, " ")` no two white-space characters are adjacent and every one left is a plain space |
| Strings.CleanSpaces | excalidraw/packages/excalidraw/utils/quizText.ts:51 | collapse-then-trim gives clean text (trimmed, single spaced, plain spaces), empty exactly when the input is all white space |
| Strings.CleanOfClean | excalidraw/packages/excalidraw/utils/quizText.ts:51 | clean text is a fixed point of collapse-then-trim |
| Strings.ReplaceAll | excalidraw/packages/excalidraw/utils/quizText.ts:7-12 | definition of a global literal replace; properties in ReplaceAllAbsent, ReplaceAllSplice and ReplaceAllRemovesChar |
| Strings.ReplaceAllAbsent | excalidraw/packages/excalidraw/utils/quizText.ts:7-12 | a global replace of a pattern that does not occur changes nothing |
| Strings.ReplaceAllSplice | excalidraw/packages/excalidraw/utils/quizText.ts:7-12 | a global replace rewrites the leftmost occurrence and resumes after it, so replacements never overlap |
| Strings.ReplaceAllRemovesChar | excalidraw/packages/excalidraw/utils/quizText.ts:37 | replacing every occurrence of a character by text without it leaves none, and adds only characters of the input or of the replacement |
| Strings.ReplaceFirst | excalidraw/packages/excalidraw/utils/latexUtils.ts:186-194 | a string-pattern `replace` rewrites only the leftmost occurrence, and returns the input unchanged when there is none |
| Strings.IndexOfFirst | excalidraw/packages/excalidraw/utils/latexUtils.ts:186-194 | the occurrence found is the leftmost one |
| Strings.ToLower | excalidraw/packages/excalidraw/actions/actionImportExamQuestions.ts:357 | `toLowerCase` keeps the length and lowers each character |
| Strings.Utf16Length | excalidraw/packages/excalidraw/actions/actionImportExamQuestions.ts:58 | `length` counts UTF-16 code units: between one and two per character, exactly one each below U+10000 and exactly two each from U+10000 on |
| Strings.Utf16LengthAppend | excalidraw/packages/excalidraw/actions/actionImportExamQuestions.ts:58 | code-unit lengths add up over concatenation |
| Strings.NatToDigits | excalidraw/packages/excalidraw/actions/actionImportExamQuestions.ts:675 | the decimal text of `n` is non-empty, all digits, and reads back as `n` |
| HtmlText.ReplaceTags | excalidraw/packages/excalidraw/utils/quizText.ts:47 | definition of `replace(/<[^>]*>/g, rep)` (and of `/<[^>]+>/g`); properties in ReplaceTagsLeavesNoTag, ReplaceTagsSplice and ReplaceTagsNoTag |
| HtmlText.ReplaceTagsLeavesNoTag | excalidraw/packages/excalidraw/utils/quizText.ts:47 | after `replace(/<[^>]*>/g, " ")` no `<` has a `>` anywhere after it |
| HtmlText.ReplaceTagsSplice | excalidraw/packages/excalidraw/utils/quizText.ts:47 | a tag after tag-free text is replaced by the replacement and scanning resumes after its `>` |
| HtmlText.ReplaceTagsNoTag | excalidraw/packages/excalidraw/utils/quizText.ts:47 | text without `<` is left unchanged |
| HtmlText.DecodeHtmlEntities | excalidraw/packages/excalidraw/utils/quizText.ts:4-18 | definition of the six-step entity chain; properties in DecodeNoEntity, DecodeLacks, DoubleEscapedLessThan and EscapedAngleBrackets |
| HtmlText.DecodeNoEntity | excalidraw/packages/excalidraw/utils/quizText.ts:4-13 | the entity decoder leaves text without `&` unchanged |
| HtmlText.DecodeLacks | excalidraw/packages/excalidraw/utils/quizText.ts:4-13 | decoding introduces no character outside the six replacements |
| HtmlText.DoubleEscapedLessThan | excalidraw/packages/excalidraw/utils/quizText.ts:8-9 | because `&amp;` is replaced before `&lt;`, the double-escaped `&amp;lt;x` decodes all the way to `<x` |
| HtmlText.EscapedAngleBrackets | excalidraw/packages/excalidraw/utils/quizText.ts:9-10 | `&lt;x&gt;` decodes to `<x>` |
| HtmlText.RemoveInlineWrappers | excalidraw/packages/excalidraw/utils/quizText.ts:23 | definition of the wrapper removal; properties in RemoveWrappersSplice and RemoveWrappersKeepsBareBackslash |
| HtmlText.RemoveWrappersSplice | excalidraw/packages/excalidraw/utils/quizText.ts:23 | each `\(`, `\)`, `\[`, `\]` is deleted and the text around it kept |
| HtmlText.RemoveWrappersKeepsBareBackslash | excalidraw/packages/excalidraw/utils/quizText.ts:23 | a backslash not followed by a bracket survives the wrapper pass |
| QuizText.SanitizeQuizText | excalidraw/packages/excalidraw/utils/quizText.ts:42-52 | a missing or empty value gives `""`; every result is clean and has no backslash |
| QuizText.SanitizeLatexToText | excalidraw/packages/excalidraw/utils/quizText.ts:20-40 | no backslash survives the LaTeX pass |
| QuizText.PlainTextKept | excalidraw/packages/excalidraw/utils/quizText.ts:42-51 | text without markup, backslash or brace only has its white space cleaned |
| QuizText.CleanPlainTextIsFixed | excalidraw/packages/excalidraw/utils/quizText.ts:42-51 | clean plain text comes back unchanged |
| QuizText.TagBecomesSpace | excalidraw/packages/excalidraw/utils/quizText.ts:47-51 | a tag between plain texts becomes one space |
| QuizText.EscapedTagSurvives | excalidraw/packages/excalidraw/utils/quizText.ts:47-48 | tags are removed before entities are decoded, so an escaped tag `&lt;x&gt;` comes out as the text `<x>` |
| QuizText.FractionBecomesSlash | excalidraw/packages/excalidraw/utils/quizText.ts:24 | `\frac{x}{y}` becomes `x/y` |
| QuizText.SymbolBecomesCharacter | excalidraw/packages/excalidraw/utils/quizText.ts:25-30 | each of `\times \cdot \leq \geq \neq \pm` becomes its character |
| QuizText.ReplaceSymbolsAppend | excalidraw/packages/excalidraw/utils/quizText.ts:25-30 | the symbol replacements run as successive passes, one table entry after another |
| QuizText.FormattingUnwrapped | excalidraw/packages/excalidraw/utils/quizText.ts:31-35 | `\mathrm{x}`, `\text{x}`, `\mathbf{x}`, `\mathit{x}`, `\mathsf{x}` become `x` |
| QuizText.BracesUnwrapped | excalidraw/packages/excalidraw/utils/quizText.ts:36 | a bare group `{x}` becomes `x` |
| QuizText.InlineMathUnwrapped | excalidraw/packages/excalidraw/utils/quizText.ts:23 | `\(x\)` and `\[x\]` become `x` |
| LatexUtils.NormalizeLatexInput | excalidraw/packages/excalidraw/utils/latexUtils.ts:52-56 | the result is clean, and empty exactly when the tag-stripped, decoded input is all white space |
| LatexUtils.NormalizeMarkupFree | excalidraw/packages/excalidraw/utils/latexUtils.ts:52-56 | text without `<` or `&` only has its white space cleaned |
| LatexUtils.NormalizeEscapedTag | excalidraw/packages/excalidraw/utils/latexUtils.ts:53-54 | an escaped tag survives normalisation as `<x>` |
| LatexUtils.StripLatexDelimiters | excalidraw/packages/excalidraw/utils/latexUtils.ts:58-64 | the result is trimmed |
| LatexUtils.StripPlain | excalidraw/packages/excalidraw/utils/latexUtils.ts:58-64 | text without backslash or dollar is only trimmed |
| LatexUtils.StripWrapped | excalidraw/packages/excalidraw/utils/latexUtils.ts:60-63 | `\(x\)` and `\[x\]` strip to the trimmed `x` |
| LatexUtils.StripDollars | excalidraw/packages/excalidraw/utils/latexUtils.ts:61-63 | leading and trailing runs of `$` of any length are removed |
| LatexUtils.WrapperRemovalIsSinglePass | excalidraw/packages/excalidraw/utils/latexUtils.ts:60 | wrapper removal is one left-to-right pass: `\\((` becomes `\(` |
| LatexUtils.ContainsLatex | excalidraw/packages/excalidraw/utils/latexUtils.ts:106-111 | definition of `containsLatex`; properties in ContainsLatexIff, PlainTextHasNoLatex and DollarSpanDetected |
| LatexUtils.ContainsLatexIff | excalidraw/packages/excalidraw/utils/latexUtils.ts:106-111 | `containsLatex` holds exactly when the normalised text has one of the eight markers at some position |
| LatexUtils.PlainTextHasNoLatex | excalidraw/packages/excalidraw/utils/latexUtils.ts:106-111 | normalised text without backslash or dollar has no LaTeX |
| LatexUtils.DollarSpanDetected | excalidraw/packages/excalidraw/utils/latexUtils.ts:108 | a `$x$` span with non-empty dollar-free `x` is a marker |
| LatexUtils.MatchEndSpans | excalidraw/packages/excalidraw/utils/latexUtils.ts:74 | the text matched at a position is a span of its form with no earlier closing delimiter inside (lazy matching) |
| LatexUtils.NextMatchFirst | excalidraw/packages/excalidraw/utils/latexUtils.ts:79 | `exec` finds the leftmost position where some alternative matches |
| LatexUtils.LatexSegments | excalidraw/packages/excalidraw/utils/latexUtils.ts:66-104 | definition of `splitLatexSegments` as a value; properties in LatexSegmentsWellFormed, LatexSegmentsInSourceOrder, DisplayBeforeInline and TextFormulaText |
| LatexUtils.SplitLatexSegments | excalidraw/packages/excalidraw/utils/latexUtils.ts:66-104 | the method returns the specified segments of the value, `[]` when normalisation leaves nothing |
| LatexUtils.ScanSegments | excalidraw/packages/excalidraw/utils/latexUtils.ts:72-103 | the `exec` loop with its `lastIndex` and the tail step yields exactly the trimmed, non-empty text and LaTeX pieces of the normalised text |
| LatexUtils.PiecesOrdered | excalidraw/packages/excalidraw/utils/latexUtils.ts:79-101 | the pieces are non-empty, disjoint and in increasing order within the text |
| LatexUtils.PiecesAlternate | excalidraw/packages/excalidraw/utils/latexUtils.ts:79-101 | two text pieces are never adjacent, and every LaTeX piece is a delimited span |
| LatexUtils.LatexSegmentsWellFormed | excalidraw/packages/excalidraw/utils/latexUtils.ts:66-104 | every segment is non-empty and trimmed, no two text segments are adjacent, and every LaTeX segment is a complete delimited span |
| LatexUtils.LatexSegmentsInSourceOrder | excalidraw/packages/excalidraw/utils/latexUtils.ts:79-101 | the segments are the trimmed slices of disjoint, increasing ranges of the normalised text |
| LatexUtils.DisplayBeforeInline | excalidraw/packages/excalidraw/utils/latexUtils.ts:74 | `$$x$$` is matched whole as display math, because that alternative comes before the inline one |
| LatexUtils.UnclosedDisplayIsEmptyInline | excalidraw/packages/excalidraw/utils/latexUtils.ts:74 | an unclosed `$$x` matches as the empty inline span `$$` |
| LatexUtils.TextFormulaText | excalidraw/packages/excalidraw/utils/latexUtils.ts:66-104 | text, `\(x\)`, text gives exactly three segments: text, LaTeX, text |
| SvgDimensions.ParseSvgDimension | excalidraw/packages/excalidraw/utils/latexUtils.ts:113-143 | a missing or empty value gives `null`; a parsed value is never negative |
| SvgDimensions.ParseNeedsDigit | excalidraw/packages/excalidraw/utils/latexUtils.ts:118-128 | a value is only parsed from text holding a digit |
| SvgDimensions.ParseDigitsWithUnit | excalidraw/packages/excalidraw/utils/latexUtils.ts:118-142 | digits with no unit or `px` read as pixels, `ex` times 8, `em` times 16 |
| SvgDimensions.ParseExUnits | excalidraw/packages/excalidraw/utils/latexUtils.ts:134-136 | `2.5ex` is 20 pixels |
| SvgDimensions.DecimalValueFinite | excalidraw/packages/excalidraw/utils/latexUtils.ts:123-128 | a run of digits and dots is a finite number exactly when it has one dot at most and a digit |
| SvgDimensions.TwoDotsIsNaN | excalidraw/packages/excalidraw/utils/latexUtils.ts:123-127 | a run with two dots is NaN, so nothing is parsed |
| SvgDimensions.JsNumberOfDigits | excalidraw/packages/excalidraw/utils/latexUtils.ts:157 | `Number` reads decimal digits, signed or not, as their value |
| SvgDimensions.StrokeWidthMatches | excalidraw/packages/excalidraw/utils/latexUtils.ts:146 | the unanchored `width="` pattern also matches inside `stroke-width="` |
| SvgDimensions.AttributeAt | excalidraw/packages/excalidraw/utils/latexUtils.ts:146-147 | the attribute read is the leftmost match |
| SvgDimensions.SplitJoined | excalidraw/packages/excalidraw/utils/latexUtils.ts:157 | `split(/\s+/)` of space-free fields joined by spaces gives back the fields |
| SvgDimensions.SplitLeadingSpace | excalidraw/packages/excalidraw/utils/latexUtils.ts:157 | leading white space gives an empty first field |
| SvgDimensions.AttributeSize | excalidraw/packages/excalidraw/utils/latexUtils.ts:146-153 | a size from the attributes is positive in both dimensions |
| SvgDimensions.ViewBoxSize | excalidraw/packages/excalidraw/utils/latexUtils.ts:155-165 | a size from the view box is positive in both dimensions |
| SvgDimensions.GetSvgDimensions | excalidraw/packages/excalidraw/utils/latexUtils.ts:145-181 | the size is positive, and there is no size (the promise rejects) exactly when neither the attributes nor the view box give one and the image fails to load |
| SvgDimensions.AttributesFirst | excalidraw/packages/excalidraw/utils/latexUtils.ts:151-153 | attribute sizes win over everything else |
| SvgDimensions.ProbeOnlyAsFallback | excalidraw/packages/excalidraw/utils/latexUtils.ts:151-166 | when attributes or view box give a size, the image probe does not matter |
| SvgDimensions.DefaultWithoutImage | excalidraw/packages/excalidraw/utils/latexUtils.ts:167-180 | without `Image`, or with a zero natural size, the size is 120 by 40 |
| SvgNamespaces.EnsureSvgNamespaces | excalidraw/packages/excalidraw/utils/latexUtils.ts:183-198 | the method computes the namespaced markup, and leaves markup that has both attributes unchanged |
| SvgNamespaces.NamespacesPresent | excalidraw/packages/excalidraw/utils/latexUtils.ts:183-198 | markup with an `<svg ` tag ends up holding both `xmlns=` and `xmlns:xlink=` |
| SvgNamespaces.NamespacesNoTag | excalidraw/packages/excalidraw/utils/latexUtils.ts:186-195 | markup without `<svg ` is returned unchanged |
| SvgNamespaces.NamespacesIdempotent | excalidraw/packages/excalidraw/utils/latexUtils.ts:183-198 | adding the namespaces twice is the same as once |
| LatexRender.RenderKey | excalidraw/packages/excalidraw/utils/latexUtils.ts:212-220 | a cache key is never empty |
| LatexRender.CacheKey | excalidraw/packages/excalidraw/utils/latexUtils.ts:212-220 | normalise, return null, strip, return null: the method computes the key |
| LatexRender.RenderImage | excalidraw/packages/excalidraw/utils/latexUtils.ts:226-232 | the miss path converts, adds namespaces, encodes and measures |
| LatexRender.FreshImage | excalidraw/packages/excalidraw/utils/latexUtils.ts:226-232 | a rendered image has a positive size |
| LatexRender.LookupTransparent | excalidraw/packages/excalidraw/utils/latexUtils.ts:222-224 | a hit on a valid cache gives what a fresh render would |
| LatexRender.InsertStep | excalidraw/packages/excalidraw/utils/latexUtils.ts:233 | storing keeps the cache valid, keeps every old entry, adds only the key, and adds it exactly when the render succeeds |
| LatexRender.InsertIdempotent | excalidraw/packages/excalidraw/utils/latexUtils.ts:222-233 | rendering the same key again changes neither the cache nor the answer |
| LatexRender.SameKeySameRender | excalidraw/packages/excalidraw/utils/latexUtils.ts:211-260 | values with the same key render to the same image and markup |
| LatexRender.LatexRenderer.constructor | excalidraw/packages/excalidraw/utils/latexUtils.ts:30-34 | both caches start empty |
| LatexRender.LatexRenderer.RenderLatexToSvgDataUrl | excalidraw/packages/excalidraw/utils/latexUtils.ts:211-236 | the answer is the uncached render; the image cache gains the key on success; the markup cache is untouched |
| LatexRender.LatexRenderer.ServeImage | excalidraw/packages/excalidraw/utils/latexUtils.ts:222-235 | hit or miss, the answer is the fresh image of the key; only that key can be added |
| LatexRender.LatexRenderer.RenderLatexToSvgMarkup | excalidraw/packages/excalidraw/utils/latexUtils.ts:238-260 | the answer is the uncached markup; the markup cache gains the key; the image cache is untouched |
| LatexRender.LatexRenderer.ServeMarkup | excalidraw/packages/excalidraw/utils/latexUtils.ts:249-259 | hit or miss, the answer is the fresh markup of the key |
| Elements.FindById | excalidraw/excalidraw-app/App.tsx:734 | `find` returns the first element with the id, or none when no element has it |
| Elements.IdNameDistinct | excalidraw/packages/excalidraw/actions/actionImportExamQuestions.ts:634 | ids handed out at different steps differ |
| Elements.RangesDisjoint | excalidraw/packages/excalidraw/actions/actionImportExamQuestions.ts:634 | ids from disjoint step ranges never coincide |
| Elements.IdSource.Fresh | excalidraw/packages/excalidraw/actions/actionImportExamQuestions.ts:634 | `randomId` hands out the id of the current step and advances |
| QuizTemplates.Styles | excalidraw/packages/excalidraw/actions/quizTemplates.ts:39-160 | definition of the `QUIZ_TEMPLATES` table; properties in NumericTemplates and TemplatePaddingPositive |
| QuizTemplates.TemplateOfName | excalidraw/packages/excalidraw/actions/quizTemplates.ts:10-16 | a recognised name is the name of the template it returns |
| QuizTemplates.TemplateNameRoundTrip | excalidraw/packages/excalidraw/actions/quizTemplates.ts:10-16 | every template's name reads back as that template |
| QuizTemplates.NumericTemplates | excalidraw/packages/excalidraw/actions/quizTemplates.ts:39-160 | the chalk, whiteboard and insta templates, and only they, number their options |
| QuizTemplates.ReadStoredAsWritten | excalidraw/packages/excalidraw/actions/quizTemplates.ts:176-186 | as written: a missing or empty stored value gives `playful` |
| QuizTemplates.InheritedKeyAccepted | excalidraw/packages/excalidraw/actions/quizTemplates.ts:179 | as written, the stored value `toString` is accepted although it names no template |
| QuizTemplates.ReadStoredQuizTemplate | excalidraw/packages/excalidraw/actions/quizTemplates.ts:176-186 | a stored template name is restored; anything else gives `playful` |
| QuizTemplates.ReadStoredAgrees | excalidraw/packages/excalidraw/actions/quizTemplates.ts:176-186 | the corrected reader agrees with the code on every value that is not an inherited object key |
| QuizTemplates.QuizTemplateStore.constructor | excalidraw/packages/excalidraw/actions/quizTemplates.ts:188 | the current template starts as the stored one |
| QuizTemplates.QuizTemplateStore.GetCurrentQuizTemplate | excalidraw/packages/excalidraw/actions/quizTemplates.ts:189 | returns the current template |
| QuizTemplates.QuizTemplateStore.SetCurrentQuizTemplate | excalidraw/packages/excalidraw/actions/quizTemplates.ts:191-198 | sets the current template and stores its name |
| QuizTemplates.StoredTemplateRestored | excalidraw/packages/excalidraw/actions/quizTemplates.ts:176-198 | a template that was set is the one read back on the next load |
| QuizTemplates.ImportedLabelsMatch | excalidraw/packages/excalidraw/actions/quizTemplates.ts:200-212 | `A.` to `Z.` and `<digits>.` text elements count as option labels |
| QuizTemplates.StyleElement | excalidraw/packages/excalidraw/actions/quizTemplates.ts:226-283 | restyling changes only the five style fields |
| QuizTemplates.ExplanationIdsIff | excalidraw/packages/excalidraw/actions/quizTemplates.ts:218-224 | an id is collected exactly when some element's answer button lists it |
| QuizTemplates.Restyled | excalidraw/packages/excalidraw/actions/quizTemplates.ts:226 | restyling keeps the number of elements |
| QuizTemplates.ApplyQuizTemplate | excalidraw/packages/excalidraw/actions/quizTemplates.ts:214-284 | the two loops (collect ids, then map) compute the restyled scene |
| QuizTemplates.RestyleKeepsShape | excalidraw/packages/excalidraw/actions/quizTemplates.ts:226-283 | every element keeps its identity, geometry, text, groups and custom data |
| QuizTemplates.UnmatchedUnchanged | excalidraw/packages/excalidraw/actions/quizTemplates.ts:282 | an element no rule matches is returned unchanged |
| QuizTemplates.RuleIgnoresStyle | excalidraw/packages/excalidraw/actions/quizTemplates.ts:227-272 | which rule applies never depends on the style fields |
| QuizTemplates.StyleOverStyle | excalidraw/packages/excalidraw/actions/quizTemplates.ts:226-283 | styling an element twice is the same as styling it once with the second template |
| QuizTemplates.RestyleKeepsIds | excalidraw/packages/excalidraw/actions/quizTemplates.ts:218-224 | restyling leaves the set of explanation ids unchanged |
| QuizTemplates.LastTemplateWins | excalidraw/packages/excalidraw/actions/quizTemplates.ts:214-284 | applying one template after another equals applying the last |
| QuizTemplates.RestyleIdempotent | excalidraw/packages/excalidraw/actions/quizTemplates.ts:214-284 | applying the same template twice equals applying it once |
| QuizTemplates.OptionRuleFirst | excalidraw/packages/excalidraw/actions/quizTemplates.ts:227-235 | an option rectangle always gets the option colours, whatever else it carries |
| QuizTemplates.LabelOnlyStroke | excalidraw/packages/excalidraw/actions/quizTemplates.ts:250-254 | an option label has only its stroke colour changed |
| QuizTemplates.ExplanationBoxIff | excalidraw/packages/excalidraw/actions/quizTemplates.ts:272-280 | a plain rectangle gets the explanation style exactly when an answer button lists its id |
| ExamAnswers.FirstPresentAt | excalidraw/packages/excalidraw/actions/actionImportExamQuestions.ts:339-345 | the `??` chain takes the first field that is present |
| ExamAnswers.OnlyFirstPresentCounts | excalidraw/packages/excalidraw/actions/actionImportExamQuestions.ts:339-345 | the answer depends only on the first present field |
| ExamAnswers.ResolveNumber | excalidraw/packages/excalidraw/actions/actionImportExamQuestions.ts:347-354 | a number resolves to an in-range index equal to it or one less, and to nothing exactly when there are no options or it is negative or above the count |
| ExamAnswers.NumberResolution | excalidraw/packages/excalidraw/actions/actionImportExamQuestions.ts:347-354 | an in-range number is 0-based; the count itself is read 1-based; anything else is null |
| ExamAnswers.OutOfRangeIndexIsNull | excalidraw/packages/excalidraw/actions/actionImportExamQuestions.ts:339-354 | `correct_index: 5` with two options is null |
| ExamAnswers.FirstFieldDecides | excalidraw/packages/excalidraw/actions/actionImportExamQuestions.ts:339-354 | an out-of-range `correctIndex` hides a valid `correct_index` |
| ExamAnswers.OptionLetter | excalidraw/packages/excalidraw/actions/actionImportExamQuestions.ts:358-360 | the letter of `option x` is lower case a to z |
| ExamAnswers.OptionPhraseResolves | excalidraw/packages/excalidraw/actions/actionImportExamQuestions.ts:358-363 | `option c` resolves to 2 when there are at least three options |
| ExamAnswers.BareLetterUnchecked | excalidraw/packages/excalidraw/actions/actionImportExamQuestions.ts:365-367 | `a` to `d` resolve to 0 to 3 with no check against the option count |
| ExamAnswers.NormalizeLetter | excalidraw/packages/excalidraw/actions/actionImportExamQuestions.ts:357 | a single letter normalises to its lower case |
| ExamAnswers.LetterResolves | excalidraw/packages/excalidraw/actions/actionImportExamQuestions.ts:356-367 | a bare `A` to `D` in either case resolves to 0 to 3 |
| ExamAnswers.FindIndex | excalidraw/packages/excalidraw/actions/actionImportExamQuestions.ts:379-381 | `findIndex` gives the first match, or none when nothing matches |
| ExamAnswers.MatchingTextResolves | excalidraw/packages/excalidraw/actions/actionImportExamQuestions.ts:379-384 | an answer spelled like an option resolves to the first such option |
| ExamAnswers.OptionPhraseOutOfRange | excalidraw/packages/excalidraw/actions/actionImportExamQuestions.ts:358-384 | `option x` past the last option falls through to the text match |
| ExamAnswers.DigitsNormalize | excalidraw/packages/excalidraw/actions/actionImportExamQuestions.ts:357 | a digit string is its own normalised form |
| ExamAnswers.DigitAnswerResolves | excalidraw/packages/excalidraw/actions/actionImportExamQuestions.ts:369-377 | a digit-string answer that the number rules read is read the same as that number |
| ExamAnswers.DigitAnswerOneBased | excalidraw/packages/excalidraw/actions/actionImportExamQuestions.ts:369-377 | `"3"` with three options resolves to 2 |
| ExamAnswers.ResolveString | excalidraw/packages/excalidraw/actions/actionImportExamQuestions.ts:356-387 | the string branch; a resolved index is never negative; its steps in OptionPhraseResolves, OptionPhraseOutOfRange, LetterResolves, DigitAnswerResolves and MatchingTextResolves |
| ExamAnswers.ResolveField | excalidraw/packages/excalidraw/actions/actionImportExamQuestions.ts:347-387 | a number goes to the number rules, a string to the string branch, anything else is null; a resolved index is never negative |
| ExamAnswers.ResolveCorrectIndex | excalidraw/packages/excalidraw/actions/actionImportExamQuestions.ts:338-388 | a resolved index is never negative; only the first present field counts (OnlyFirstPresentCounts), and that field is read by ResolveField |
| ExamAnswers.ResolveExplanationText | excalidraw/packages/excalidraw/actions/actionImportExamQuestions.ts:390-392 | a non-empty explanation is one of the three explanation fields, and with all three absent the explanation is `""` |
| ExamAnswers.ExplanationPrecedence | excalidraw/packages/excalidraw/actions/actionImportExamQuestions.ts:390-392 | the first present field of `explanation`, `explanation_text`, `solution` is the explanation, whatever the later fields hold |
| ExamAnswers.EmptyExplanationWins | excalidraw/packages/excalidraw/actions/actionImportExamQuestions.ts:391 | an empty `explanation` is kept by `??`, so the other fields are never consulted |
| ExamAnswers.HeightForLength | excalidraw/packages/excalidraw/actions/actionImportExamQuestions.ts:56-61 | the estimate lies between 546 and 840 |
| ExamAnswers.EstimateExplanationHeight | excalidraw/packages/excalidraw/actions/actionImportExamQuestions.ts:56-61 | the estimate of any html lies between 546 and 840 |
| ExamAnswers.AstralTextCountsDouble | excalidraw/packages/excalidraw/actions/actionImportExamQuestions.ts:57-58 | tag-free text of characters outside the Basic Multilingual Plane is measured at two code units per character |
| ExamAnswers.HeightMonotone | excalidraw/packages/excalidraw/actions/actionImportExamQuestions.ts:58-60 | longer text never gets a smaller card |
| ExamAnswers.HeightLines | excalidraw/packages/excalidraw/actions/actionImportExamQuestions.ts:58-60 | up to 240 characters 546, up to 1280 characters 480 + 22 per 80-character line, then 840 |
| QuizFlow.ScaledSizeBounds | excalidraw/packages/excalidraw/actions/actionImportExamQuestions.ts:505-507 | a scaled formula is at least 1 by 1, never larger than the original or 1, and no wider than the maximum width or 1 |
| QuizFlow.ScaledDown | excalidraw/packages/excalidraw/actions/actionImportExamQuestions.ts:505-507 | a formula wider than the maximum is scaled to exactly the maximum width |
| QuizFlow.TextPieceOf | excalidraw/packages/excalidraw/actions/actionImportExamQuestions.ts:443-447 | a text segment either places its sanitised text or is skipped |
| QuizFlow.PieceOf | excalidraw/packages/excalidraw/actions/actionImportExamQuestions.ts:442-495 | every segment becomes a well-formed flow piece |
| QuizFlow.LayoutAborted | excalidraw/packages/excalidraw/actions/actionImportExamQuestions.ts:492 | after a rejected render nothing more is placed |
| QuizFlow.AbortAnywhere | excalidraw/packages/excalidraw/actions/actionImportExamQuestions.ts:492 | one rejected render anywhere aborts the whole flow |
| QuizFlow.NoAbortFlows | excalidraw/packages/excalidraw/actions/actionImportExamQuestions.ts:442-531 | without a rejection the flow completes |
| QuizFlow.SkipsChangeNothing | excalidraw/packages/excalidraw/actions/actionImportExamQuestions.ts:445-495 | empty texts and null renders place nothing and leave the cursor |
| QuizFlow.LineStartUnwrapped | excalidraw/packages/excalidraw/actions/actionImportExamQuestions.ts:462 | at the start of a line, text is placed as measured and never wrapped |
| QuizFlow.FlowHeight | excalidraw/packages/excalidraw/actions/actionImportExamQuestions.ts:533-535 | the height covers the last line, at least the font size, measured from the top |
| QuizFlow.TextReached | excalidraw/packages/excalidraw/actions/actionImportExamQuestions.ts:443-489 | a text step adds one element, grouped, tagged, below the top, inside the width once off the line start, with a fresh id |
| QuizFlow.ImageReached | excalidraw/packages/excalidraw/actions/actionImportExamQuestions.ts:492-530 | an image step adds one placed image with a fresh id and registers its file |
| QuizFlow.StepReached | excalidraw/packages/excalidraw/actions/actionImportExamQuestions.ts:442-531 | every step keeps the cursor below the top and extends elements, files and ids as above |
| QuizFlow.LayoutReached | excalidraw/packages/excalidraw/actions/actionImportExamQuestions.ts:442-531 | the whole loop extends the state that way |
| QuizFlow.FlowContentFails | excalidraw/packages/excalidraw/actions/actionImportExamQuestions.ts:436-536 | the flow fails exactly when some piece is a rejected render |
| QuizFlow.SegmentsFail | excalidraw/packages/excalidraw/actions/actionImportExamQuestions.ts:436-536 | the flow fails exactly when the render of some LaTeX segment rejects |
| QuizFlow.QuizContentFails | excalidraw/packages/excalidraw/actions/actionImportExamQuestions.ts:435-586 | content fails exactly when a LaTeX segment's render rejects (several segments), or the render of the whole text rejects (one segment that contains LaTeX) |
| QuizFlow.FlowContentPlaced | excalidraw/packages/excalidraw/actions/actionImportExamQuestions.ts:436-536 | flowed content is placed, has fresh distinct ids, keeps the old files, and is at least one font size tall |
| QuizFlow.SingleContentPlaced | excalidraw/packages/excalidraw/actions/actionImportExamQuestions.ts:538-585 | a single image or text element is placed with a fresh id |
| QuizFlow.QuizContentPlaced | excalidraw/packages/excalidraw/actions/actionImportExamQuestions.ts:414-586 | all content is placed with fresh distinct ids; flowed content is at least one font size tall |
| QuizFlow.PlaceText | excalidraw/packages/excalidraw/actions/actionImportExamQuestions.ts:443-489 | the method performs one text step, wrapping onto a new line when it overflows |
| QuizFlow.PlaceImage | excalidraw/packages/excalidraw/actions/actionImportExamQuestions.ts:497-530 | the method performs one image step |
| QuizFlow.FlowText | excalidraw/packages/excalidraw/actions/actionImportExamQuestions.ts:443-489 | one text segment of the loop |
| QuizFlow.FlowImage | excalidraw/packages/excalidraw/actions/actionImportExamQuestions.ts:492-530 | one LaTeX segment of the loop, rendered through the cache |
| QuizFlow.FlowOne | excalidraw/packages/excalidraw/actions/actionImportExamQuestions.ts:442-531 | one iteration of the segment loop |
| QuizFlow.FlowSegments | excalidraw/packages/excalidraw/actions/actionImportExamQuestions.ts:437-535 | the segment loop computes the specified layout |
| QuizFlow.PlaceFormula | excalidraw/packages/excalidraw/actions/actionImportExamQuestions.ts:538-566 | a lone formula becomes one scaled image at the anchor |
| QuizFlow.PlaceSingleText | excalidraw/packages/excalidraw/actions/actionImportExamQuestions.ts:570-585 | plain text becomes one wrapped text element at the anchor |
| QuizFlow.QuizContent | excalidraw/packages/excalidraw/actions/actionImportExamQuestions.ts:414-586 | definition of `createQuizContentElement` as a value; properties in QuizContentFails, QuizContentPlaced and QuizContentWellFormed |
| QuizFlow.CreateQuizContentElement | excalidraw/packages/excalidraw/actions/actionImportExamQuestions.ts:414-586 | the method computes the specified content and advances the id counter past it |
| QuizFlow.QuizContentWellFormed | excalidraw/packages/excalidraw/actions/actionImportExamQuestions.ts:414-586 | every outcome of the real content factory is placed with fresh ids |
| ExplanationCard.StartStep | excalidraw/packages/excalidraw/actions/actionImportExamQuestions.ts:231-237 | definition of `startTyping`; properties in ClickToggles and ClickKeepsInv |
| ExplanationCard.ClickStep | excalidraw/packages/excalidraw/actions/actionImportExamQuestions.ts:263-278 | definition of the click listener; properties in ClickWhileTypingIgnored, ClickToggles and ClickKeepsInv |
| ExplanationCard.TypeStep | excalidraw/packages/excalidraw/actions/actionImportExamQuestions.ts:239-258 | definition of one `typeNext` tick; properties in TickProgress, TypeKeepsInv, TypingProgress and TypingFinishes |
| ExplanationCard.NextIndex | excalidraw/packages/excalidraw/actions/actionImportExamQuestions.ts:242-243 | the next index never passes the end, grows by 1 to 60 while before it, and by exactly 60 unless it reaches the end |
| ExplanationCard.InitialInv | excalidraw/packages/excalidraw/actions/actionImportExamQuestions.ts:191-195 | the card starts hidden, idle, empty and enabled, which keeps the invariant |
| ExplanationCard.ClickKeepsInv | excalidraw/packages/excalidraw/actions/actionImportExamQuestions.ts:263-278 | clicks keep "shown is the first index characters, button disabled exactly while typing, typing only while visible" |
| ExplanationCard.TypeKeepsInv | excalidraw/packages/excalidraw/actions/actionImportExamQuestions.ts:239-258 | ticks keep the same invariant |
| ExplanationCard.ClickWhileTypingIgnored | excalidraw/packages/excalidraw/actions/actionImportExamQuestions.ts:264 | a click while typing does nothing |
| ExplanationCard.ClickToggles | excalidraw/packages/excalidraw/actions/actionImportExamQuestions.ts:266-275 | a click flips visibility; showing restarts typing from nothing with the button disabled |
| ExplanationCard.TickProgress | excalidraw/packages/excalidraw/actions/actionImportExamQuestions.ts:240-257 | a tick before the end shows up to 60 more characters and keeps typing; the tick at the end shows everything and stops |
| ExplanationCard.TypingProgress | excalidraw/packages/excalidraw/actions/actionImportExamQuestions.ts:239-258 | after `k` ticks before the end the card shows the first `min(index + 60k, length)` characters and is still typing |
| ExplanationCard.TypingFinishes | excalidraw/packages/excalidraw/actions/actionImportExamQuestions.ts:239-258 | typing ends after `ceil(rest / 60) + 1` ticks with the whole text shown and the button enabled |
| ExplanationCard.CardScript.constructor | excalidraw/packages/excalidraw/actions/actionImportExamQuestions.ts:184-195 | the script starts in the initial state |
| ExplanationCard.CardScript.StartTyping | excalidraw/packages/excalidraw/actions/actionImportExamQuestions.ts:231-237 | `startTyping` performs the start step and keeps the invariant |
| ExplanationCard.CardScript.Click | excalidraw/packages/excalidraw/actions/actionImportExamQuestions.ts:263-278 | the listener performs the click step and keeps the invariant |
| ExplanationCard.CardScript.TypeNext | excalidraw/packages/excalidraw/actions/actionImportExamQuestions.ts:239-258 | `typeNext` performs one tick and keeps the invariant |
| ExamImport.CommonBounds | excalidraw/packages/excalidraw/actions/actionImportExamQuestions.ts:783 | every element lies inside the common bounds |
| ExamImport.BoundsAttained | excalidraw/packages/excalidraw/actions/actionImportExamQuestions.ts:783 | each of the four bounds is attained by some element |
| ExamImport.LabelTextRecognised | excalidraw/packages/excalidraw/actions/actionImportExamQuestions.ts:673-680 | the label text made for an option is one the template restyler recognises as a label |
| ExamImport.PlaceOption | excalidraw/packages/excalidraw/actions/actionImportExamQuestions.ts:658-736 | one option iteration computes the specified option step |
| ExamImport.PlaceOptions | excalidraw/packages/excalidraw/actions/actionImportExamQuestions.ts:657-737 | the options loop computes the options in order, stopping at the first failure |
| ExamImport.OptionShape | excalidraw/packages/excalidraw/actions/actionImportExamQuestions.ts:658-736 | the rectangle comes first, 550 wide at the slide's x and the current y, as tall as the content plus 24; then the label with its text; the next option starts 16 below; all parts carry the option index, the rectangle's id and whether it is correct |
| ExamImport.OptionBody | excalidraw/packages/excalidraw/actions/actionImportExamQuestions.ts:689-734 | an option appends elements with fresh distinct ids, in the slide's group, tagged with an in-range option index and correct exactly when that index is the resolved one |
| ExamImport.OptionsBody | excalidraw/packages/excalidraw/actions/actionImportExamQuestions.ts:657-737 | all options together keep those facts |
| ExamImport.QuestionBody | excalidraw/packages/excalidraw/actions/actionImportExamQuestions.ts:639-651 | the question's elements have fresh ids and are in the slide's group |
| ExamImport.CardBody | excalidraw/packages/excalidraw/actions/actionImportExamQuestions.ts:739-780 | the explanation card, added only for a non-empty text, keeps those facts |
| ExamImport.BackgroundEncloses | excalidraw/packages/excalidraw/actions/actionImportExamQuestions.ts:782-801 | the background is a grouped rectangle marked as such that encloses every slide element with the template's padding |
| ExamImport.AnchorIsContentCentre | excalidraw/packages/excalidraw/actions/actionImportExamQuestions.ts:803-813 | the background goes first, and the anchor is the centre of the slide's content |
| ExamImport.TemplatePaddingPositive | excalidraw/packages/excalidraw/actions/quizTemplates.ts:39-160 | every template's slide padding is positive |
| ExamImport.FinishBody | excalidraw/packages/excalidraw/actions/actionImportExamQuestions.ts:782-813 | a non-empty slide starts with its background and has an anchor; an empty one has neither |
| ExamImport.PlaceQuestion | excalidraw/packages/excalidraw/actions/actionImportExamQuestions.ts:639-651 | the method places the question content at the top of the slide |
| ExamImport.PlaceExplanation | excalidraw/packages/excalidraw/actions/actionImportExamQuestions.ts:739-780 | the method adds the explanation card when there is text |
| ExamImport.PlaceBackground | excalidraw/packages/excalidraw/actions/actionImportExamQuestions.ts:782-805 | the method adds the background and the anchor |
| ExamImport.BuildBelowQuestion | excalidraw/packages/excalidraw/actions/actionImportExamQuestions.ts:653-805 | options, card and background in that order |
| ExamImport.Slide | excalidraw/packages/excalidraw/actions/actionImportExamQuestions.ts:633-813 | definition of one slide; properties in SlideWellFormed, OnlyResolvedIsCorrect, UnresolvedMarksNone and AppSlidesOk |
| ExamImport.BuildSlide | excalidraw/packages/excalidraw/actions/actionImportExamQuestions.ts:633-813 | one iteration of the questions loop computes the specified slide |
| ExamImport.SlideWellFormed | excalidraw/packages/excalidraw/actions/actionImportExamQuestions.ts:632-814 | a slide has fresh distinct ids, all in its own new group, its background first, options tagged by the resolved answer, and an anchor exactly when it has elements |
| ExamImport.OnlyResolvedIsCorrect | excalidraw/packages/excalidraw/actions/actionImportExamQuestions.ts:693 | only the part of the option whose index is the resolved answer is marked correct |
| ExamImport.UnresolvedMarksNone | excalidraw/packages/excalidraw/actions/actionImportExamQuestions.ts:693 | with no resolvable answer, or one out of range, no option is marked correct |
| ExamImport.SlideFnOk | excalidraw/packages/excalidraw/actions/actionImportExamQuestions.ts:632-814 | the slide builder over well-formed content makes only well-formed slides |
| ExamImport.AppSlidesOk | excalidraw/packages/excalidraw/actions/actionImportExamQuestions.ts:632-814 | so does the slide builder the app actually uses |
| ExamImport.SlideExtends | excalidraw/packages/excalidraw/actions/actionImportExamQuestions.ts:632-814 | appending one slide keeps all created ids fresh and distinct |
| ExamImport.Slides | excalidraw/packages/excalidraw/actions/actionImportExamQuestions.ts:630-814 | definition of the questions loop; properties in SlidesWellFormed, SlidesFailed and SlideExtends |
| ExamImport.SlidesWellFormed | excalidraw/packages/excalidraw/actions/actionImportExamQuestions.ts:632-814 | a completed loop adds exactly one anchor per question and only extends the created elements, the files and the ids |
| ExamImport.SlidesFailed | excalidraw/packages/excalidraw/actions/actionImportExamQuestions.ts:630-841 | a failed loop keeps the anchors of the slides before the failure, fewer than the questions |
| ExamImport.ImportExam | excalidraw/packages/excalidraw/actions/actionImportExamQuestions.ts:594-842 | definition of `perform`; properties in ImportOutcomes |
| ExamImport.ImportOutcomes | excalidraw/packages/excalidraw/actions/actionImportExamQuestions.ts:594-842 | no exam id: not handled and anchors kept; fetch errors keep the anchors; no questions: the "No questions" message; success: one anchor per question and the old scene extended by elements with new distinct ids; a failed render: the SVG message with fewer anchors |
| ExamImport.ExamImporter.constructor | excalidraw/packages/excalidraw/actions/actionImportExamQuestions.ts:315 | there are no anchors at first |
| ExamImport.ExamImporter.ImportExamQuestions | excalidraw/packages/excalidraw/actions/actionImportExamQuestions.ts:594-842 | the action computes the specified result and leaves the specified anchors |
| ExamImport.ExamImporter.BuildSlides | excalidraw/packages/excalidraw/actions/actionImportExamQuestions.ts:630-814 | the questions loop computes the specified run and stores its anchors |
| ExamImport.ActionSetQuizTemplate | excalidraw/packages/excalidraw/actions/actionImportExamQuestions.ts:845-872 | corrected: an unknown or missing name changes nothing; a template name becomes current, is stored, and the scene is restyled with it and a toast naming it |
| ExamImport.InheritedTemplateNamePassesGuard | excalidraw/packages/excalidraw/actions/actionImportExamQuestions.ts:852 | as written, the guard lets `constructor` through although it names no template |
| QuizClick.RevealOption | excalidraw/excalidraw-app/App.tsx:706-716 | definition of the option branch: the scene keeps its length; properties in RevealOptionAt and RevealOptionStable |
| QuizClick.Toggle | excalidraw/excalidraw-app/App.tsx:732-750 | definition of the answer-button branch: the scene keeps its length; properties in ToggleSetsAll and ToggleAlternates |
| QuizClick.PointerUpEffect | excalidraw/excalidraw-app/App.tsx:686-753 | definition of the handler's effect: the scene keeps its length; properties in DragIgnored, OptionClickWins, AnswerButtonWithoutTargets and AnswerButtonClick |
| QuizClick.OptionTarget | excalidraw/excalidraw-app/App.tsx:698-705 | a hit is an option click exactly when it carries a non-empty option element id |
| QuizClick.RevealOptionAt | excalidraw/excalidraw-app/App.tsx:706-716 | only the element with the option's id gets green (correct) or red and a solid fill; all others are unchanged |
| QuizClick.RevealOptionStable | excalidraw/excalidraw-app/App.tsx:706-716 | revealing keeps ids and positions, and revealing twice is the same as once |
| QuizClick.ExplanationIds | excalidraw/excalidraw-app/App.tsx:724-730 | a hit is an answer-button click exactly when the button lists at least one id |
| QuizClick.FoundAreFirst | excalidraw/excalidraw-app/App.tsx:732-736 | every element found is the first element bearing one of the listed ids |
| QuizClick.FoundIndicesAre | excalidraw/excalidraw-app/App.tsx:732-740 | every listed id that is present is found, and nothing is found exactly when no listed id is present |
| QuizClick.SetOpacityAt | excalidraw/excalidraw-app/App.tsx:746-750 | exactly the found elements get the new opacity |
| QuizClick.DragIgnored | excalidraw/excalidraw-app/App.tsx:691-693 | without the API, or after a drag, nothing changes |
| QuizClick.OptionClickWins | excalidraw/excalidraw-app/App.tsx:705-722 | an option click reveals the option and ignores any answer button |
| QuizClick.AnswerButtonWithoutTargets | excalidraw/excalidraw-app/App.tsx:728-740 | a button whose ids are all missing changes nothing |
| QuizClick.AnswerButtonClick | excalidraw/excalidraw-app/App.tsx:724-750 | an answer-button click toggles its explanations |
| QuizClick.ToggleSetsAll | excalidraw/excalidraw-app/App.tsx:742-750 | all found elements become 100 opaque if any was hidden, else 0, and nothing else changes |
| QuizClick.ToggleAlternates | excalidraw/excalidraw-app/App.tsx:742-750 | after a toggle the same elements are found, and a second toggle hides what the first showed and shows what it hid |
| QuizClick.SameIdsSameFound | excalidraw/excalidraw-app/App.tsx:732-736 | finding depends only on the elements' ids |
| QuizClick.Scene.constructor | excalidraw/excalidraw-app/App.tsx:696 | the scene holds the given elements |
| QuizClick.Scene.HandleQuizOptionPointerUp | excalidraw/excalidraw-app/App.tsx:686-753 | the handler changes the scene as specified |
| QuizClick.Scene.ToggleExplanations | excalidraw/excalidraw-app/App.tsx:732-750 | the answer-button branch toggles as specified |
| QuizClick.Scene.SetAll | excalidraw/excalidraw-app/App.tsx:746-750 | the `forEach` sets the opacity of exactly the found elements |

## Findings

| source | as written | input that shows it | evidently intended | confidence | as-written member | corrected member |
|---|---|---|---|---|---|---|
| excalidraw/packages/excalidraw/actions/quizTemplates.ts:179 | `stored in QUIZ_TEMPLATES` also holds for keys inherited from `Object.prototype` | stored value `"toString"` becomes the current template, and every later template lookup yields a function instead of styles | restore only the six template names and fall back to `playful` otherwise | medium, not executed | QuizTemplates.InheritedKeyAccepted | QuizTemplates.ReadStoredAgrees |
| excalidraw/packages/excalidraw/actions/actionImportExamQuestions.ts:852 | `!QUIZ_TEMPLATES[value.template]` is false for inherited keys | template `"constructor"` passes the guard, is stored, and restyles the scene with `Object` as its "template" | reject names that are not one of the six templates | low, not executed (the parameter's static type is the template union, so only untyped callers reach it) | ExamImport.InheritedTemplateNamePassesGuard | ExamImport.ActionSetQuizTemplate |

The rest of the model uses the corrected versions. `QuizTemplateStore`
reads the stored value with `ReadStoredQuizTemplate`, and
`ActionSetQuizTemplate` accepts only names that `TemplateOfName`
recognises. The as-written versions are `ReadStoredAsWritten` and
`SetTemplateGuardAsWritten`.

## Left out

- The exam API request (URL, `fetch`, JSON decoding) is not modelled. The
  response enters as a parameter: data, a status that is not ok, or an
  exception with its message.
- MathJax's TeX-to-SVG conversion, the base64 data-URL encoding and the
  browser's image decode enter as function parameters (`MathJax`).
  Conversion is total. A MathJax exception, whose message would replace
  "Failed to load SVG", is not modelled.
- LatexRender.RenderImage: the encoding is total. In the code, `btoa`
  throws for markup holding a character above U+00FF, which MathJax's
  `<text>` fallback can produce for non-Latin-1 text. That exception
  ends the import in the action's `catch` with its own message. The
  model does not have this failure.
- ExamImport.ImportOutcomes: the clause "a failed render shows 'Failed to
  load SVG'" covers only a rejected image decode. A `btoa` or MathJax
  exception would show its own message instead, and the model does not
  have those failures.
- The DOM branch of the entity decoder (a `textarea`'s `innerHTML`) is
  not modelled. The model uses the six-entity chain that runs without a
  DOM.
- Strings.ToLower: lowers only ASCII `A`-`Z`, not the full Unicode case
  mapping of `toLowerCase`.
- Text measurement (`newTextElement`'s width and height) and `wrapText`
  enter as host functions, and so does the explanation page's html
  (`createExplanationHtml`). Their results are not constrained.
- `randomId` is modelled as a counter whose step numbers print as
  distinct ids. Group ids, element ids and file ids all come from it.
- Host element fields the code never reads are not modelled: versions,
  seeds, `updated` stamps, fonts, alignment, `frameId` and the like. Nor
  is `newElementWith`'s version bump.
- The file entries hold only the data URL, not their MIME type or
  creation time.
- `getScrollToCenter` and the app-state fields the action resets
  (selection, `editingGroupId`, scroll) are not modelled. The model
  returns the scene, the files and the anchors.
- ExamImport.FinishSlide: an empty slide gets no anchor (`None`), where
  the code pushes the centre of the empty bounds, which is `NaN`.
- The explanation card's timers, `requestAnimationFrame`, KaTeX
  auto-render, the resize `postMessage`, the button's label texts and the
  `load` and interval hooks are not modelled.
- ExplanationCard.CardScript.TypeNext: measures and slices the card's text
  by characters, where `length` and `substring` count UTF-16 code units.
  A chunk therefore holds up to 60 characters, not 60 code units, and it
  never splits a surrogate pair as the code's chunks can. The same holds
  for `ExplanationCard.TypeStep`, `NextIndex` and `TypingFinishes`.
- ExamImport.Letter: `fromCharCode` can yield a lone surrogate, which
  Dafny's `char` cannot hold. It is written as U+FFFD. This only happens
  past about 55,000 options.
- ExplanationCard.CardScript.TypeNext: only specified while typing,
  because the timer is only scheduled then.
- ExplanationCard.CardScript.StartTyping: requires a visible card, as in
  its only caller.
- The canvas API (`updateScene`, `mutateElement`, `getSceneElements`) is
  modelled as reassigning the `Scene` element sequence. Undo capture
  is not modelled.
- `localStorage` is a cell holding an optional string. Its exceptions,
  which the code ignores, are not modelled.
- The question `ID` copied into each option's metadata (`questionId`), and
  the `subject` and `count` fields, are not modelled.
- Numbers are mathematical reals. Floating-point rounding and `NaN` from
  arithmetic are not modelled. `Number` on dimension and view-box text
  is modelled on decimal digits with an optional sign, dot and exponent.
