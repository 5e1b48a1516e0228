# embedded-text, modelled in Dafny

A model of the text layout core of `embedded-text`, a Rust library that
draws wrapped text into a text box on an embedded-graphics display:

- `Parser` (src/parser.rs) cuts text into tokens: words, whitespace runs,
  newlines, carriage returns. A non-breaking space (U+00A0) counts as part
  of a word.
- `TextTokens` is the richer token stream that the line layout and the
  plugins read. It adds tab and soft-hyphen tokens and keeps the raw text
  of whitespace runs.
- `Widths` and `FontExt` (src/utils/font_ext.rs) give the width of
  characters and strings and the measurement of how much of a line fits.
- `Style` (src/style/mod.rs) is `measure_text`, the height a text takes
  when wrapped to a width. `StyleProps` proves its bounds and its listed
  examples.
- `LineIter` (src/rendering/line_iter.rs) is the line layout: a
  `LineElementParser` class and a recording `ElementHandler` class. Every
  method is proved against a function on values, `Step` for one token and
  `Processed` for a whole line. `LineIterProps` proves the promised
  behaviours:
  - word wrapping, and splitting words wider than a line;
  - hidden leading and trailing whitespace;
  - tab stops;
  - soft hyphens;
  - non-breaking spaces drawn as spaces;
  - progress on a line too narrow for any character.

  `LineIterExamples` proves the unit tests `tabs`, `soft_hyphen`,
  `soft_hyphen_wrapped` and `cursor_limit`. Each test is proved first for
  any words of the lengths it uses, then for its own text, in the tests'
  font of 6 pixels per character.
- `Middleware` (src/middleware.rs) and `Plugin` (src/plugin/mod.rs) are
  the wrappers that let user code see and replace tokens. Both are classes
  that hold the user's state, the current processing state and the token
  peeked last. The user's trait methods are given as functions of its
  state.
- `Color` (src/style/color.rs) converts a 24-bit colour to the
  embedded-graphics colour types.

Integers are unbounded and text is a sequence of characters.

## Model

| member | source | states |
|---|---|---|
| Parser.Run | src/parser.rs:95-108 | the length of the longest prefix whose characters all satisfy the predicate: all before it do, the next does not |
| Parser.Lex | src/parser.rs:88-129 | no token exactly for empty text; each token consumes 1 to all characters; newline and carriage return take one character; a whitespace token counts a maximal run of space characters; a word is a maximal run of word characters; the first character's class decides the token |
| Parser.TokenizeSpellsText | src/parser.rs:88-129 | the tokens of a text, read in order, spell out exactly that text |
| Parser.LexWord | src/parser.rs:110-127 | text starting with a word character is read as the word of its leading word characters |
| Parser.WordOnlyText | src/parser.rs:110-127 | a text made only of word characters is one word token |
| Parser.TokenizeWordFirst | src/parser.rs:110-127 | a word followed by a non-word character is read as one word token, then the rest |
| Parser.TokenizeSpacesFirst | src/parser.rs:95-108 | a space run followed by a non-space character is one whitespace token of its length, then the rest |
| Parser.NbspInsideWord | src/parser.rs:179-191 | a non-breaking space inside a word does not split it |
| Parser.NbspStartsWord | src/parser.rs:75-81 | a non-breaking space after spaces starts a word, not whitespace |
| Parser.CharClasses | src/parser.rs:75-81 | `is_word_char` holds exactly for characters that are neither space characters nor line breaks; a non-breaking space is whitespace but a word character, not a space character |
| Parser.Utf8LenSplit | src/parser.rs:71-73 | the byte length of a text is additive over a split, and at least its character count |
| Parser.AdvanceShrinks | src/parser.rs:88-129 | reading a token from non-empty text strictly lowers the number of unread bytes and characters |
| Parser.Parser.Parse | src/parser.rs:49-54 | the parser starts with the whole text unread |
| Parser.Parser.Peek | src/parser.rs:58-60 | peek yields a token exactly when text remains |
| Parser.Parser.IsEmpty | src/parser.rs:65-67 | empty exactly when no bytes remain |
| Parser.Parser.Remaining | src/parser.rs:69-73 | the unread byte count is at least the unread character count, and zero exactly when nothing is left |
| Parser.Parser.Next | src/parser.rs:88-129 | yields what peek would have yielded, advances past that token only, and yields None exactly at the end; the remaining byte count drops on every token |
| TextTokens.Lex | src/rendering/line_iter.rs:288-413 | no token exactly for empty text; every token consumes input; whitespace runs, words, soft-hyphen breaks and one-character tokens cover exactly the characters of their class |
| TextTokens.NextToken | src/rendering/line_iter.rs:269-273 | a token exactly when text remains |
| TextTokens.AdvanceBy | src/middleware.rs:156-177 | what is left after `k` tokens is a suffix of the text, strictly shorter when a token was read |
| TextTokens.Parser.Parse | src/parser.rs:49-54 | the token source starts on the whole text |
| Widths.TextWidthAppend | src/utils/font_ext.rs:72-74 | the width of a string is additive over concatenation |
| Widths.TextWidthSingle | src/utils/font_ext.rs:67-69 | a one-character string is as wide as that character's advance |
| Widths.FittingPrefixLen | src/rendering/line_iter.rs:133-157 | the longest prefix that fits: it fits, and one more character would not |
| Widths.PrefixWidthMonotone | src/utils/font_ext.rs:51-64 | a longer prefix is never narrower |
| Widths.FittingPrefixIsLongest | src/rendering/line_iter.rs:133-157 | no prefix longer than the fitting one fits |
| Widths.FittingPrefixUnique | src/utils/font_ext.rs:51-64 | a prefix that fits while the next longer one does not is the fitting prefix |
| FontExt.StrWidthIsSum | src/utils/font_ext.rs:67-74 | `Font.TotalCharWidth` and `StrWidth`: `str_width` is additive, one character is glyph width plus spacing, and a string takes at least one spacing per character |
| FontExt.MonospaceStrWidth | src/utils/font_ext.rs:72-74 | in a font where every character advances `w`, `n` characters are `n * w` wide |
| FontExt.Measured | src/utils/font_ext.rs:51-64 | the width never exceeds the maximum; the whole line fits iff its width is within the maximum, and then the width is the line's; otherwise the width is that of a proper prefix that the next character would overflow |
| FontExt.EmptyLineMeasurement | src/utils/font_ext.rs:37-43 | an empty line measures as `LineMeasurement::empty`: no width, and it fits |
| FontExt.MeasureLine | src/utils/font_ext.rs:51-64 | the loop with its early return computes `Measured` |
| FontExt.Font6x8Measured | src/utils/font_ext.rs:51-64 | in the 6x8 font, `k` characters fit when `6k` fits and `6(k+1)` does not |
| FontExt.Font6x8Examples | src/utils/font_ext.rs:83-103 | the four measurements listed for the 6x8 font |
| Style.IndexOfChar | src/style/mod.rs:49-50 | the position of the first occurrence of a character, or None when absent |
| Style.StripCr | src/style/mod.rs:49-50 | the line, or the line without a final carriage return |
| Style.LinesSplit | src/style/mod.rs:49-50 | `Style.Lines`: the first line ends before the first newline and the rest are the lines after it |
| Style.LinesCount | src/style/mod.rs:49-50 | one line per newline, plus one for text after the last newline |
| Style.LinesArePieces | src/style/mod.rs:49-50 | no line holds a newline, and the lines hold no more characters than the text |
| Style.CountWordRows | src/style/mod.rs:56-79 | the character loop of a word token computes `WordRows` |
| Style.CountSpaceRows | src/style/mod.rs:81-91 | the loop over the spaces of a whitespace token computes `SpacesRows` |
| Style.LineRowCount | src/style/mod.rs:51-96 | the per-line closure computes `LineRows` |
| Style.MeasureText | src/style/mod.rs:48-100 | the height is the rows of all lines times the font's row height |
| StyleProps.WordFromRows | src/style/mod.rs:56-79 | a word opens at most one row per character and never closes one |
| StyleProps.WordFromFits | src/style/mod.rs:56-79 | a word opens no row iff it fits on the current row |
| StyleProps.WordOpensNoRowIffFits | src/style/mod.rs:56-79 | a word token stays on its row iff the row's content plus its width fit |
| StyleProps.WordFromAppend | src/style/mod.rs:56-79 | measuring a word in two pieces is measuring it whole |
| StyleProps.SpacesRowsBound | src/style/mod.rs:81-91 | `n` spaces open at most `n` rows |
| StyleProps.TokenizeSpan | src/parser.rs:88-129 | the tokens of a line hold as many characters as the line |
| StyleProps.TokensRowsBound | src/style/mod.rs:54-94 | tokens open at most one row per character they hold |
| StyleProps.LineRowsBounds | src/style/mod.rs:51-96 | a line takes at least one row and at most one more than its length |
| StyleProps.SingleWordRows | src/style/mod.rs:56-79 | a one-word line takes one row iff the word fits the width |
| StyleProps.RowsOfBounds | src/style/mod.rs:49-97 | lines take at least one row each and at most one more per character |
| StyleProps.TextRowsBounds | src/style/mod.rs:48-100 | `Style.TextRows`: a text takes at least one row per line and at most that plus its length; empty text takes none |
| StyleProps.TokensRowsAppend | src/style/mod.rs:54-94 | measuring two token sequences one after the other is measuring them joined |
| StyleProps.SpaceThenWordTokens | src/parser.rs:95-108 | one space before a word is read as a whitespace token of one space |
| StyleProps.WordThenSpaceTokens | src/parser.rs:88-129 | a word, one space and more text read as the word, a one-space token and the tokens of the rest |
| StyleProps.SpacedWordsTokens | src/parser.rs:88-129 | words joined by single spaces read as word and one-space tokens, alternately |
| StyleProps.WordRowsExamples | src/style/mod.rs:185-206 | "word" takes 1 row at 24 pixels, 2 rows at 23 and at 12 |
| StyleProps.VeryLongWordRows | src/style/mod.rs:185-206 | a twelve-character word such as "verylongword" on an empty 50-pixel row is broken once, leaving 24 pixels on the second row |
| StyleProps.WrappedVeryLongWordRows | src/style/mod.rs:185-206 | a twelve-character word after 30 pixels of a 50-pixel row (after "some ") is wrapped and then broken, ending on the third row |
| StyleProps.OneLineRows | src/style/mod.rs:48-100 | a non-empty text without newline takes the rows of its tokens |
| StyleProps.OneWordLineRows | src/style/mod.rs:48-100 | a one-word text takes the rows of that word |
| StyleProps.LinesOfTwo | src/style/mod.rs:49-50 | two pieces without line endings joined by a newline are two lines |
| StyleProps.TwoOneWordLines | src/style/mod.rs:48-100 | two words on lines of their own take the rows each takes alone |
| StyleProps.SomeVeryLongWordRows | src/style/mod.rs:185-206 | a four-character word, a space and a twelve-character word ("some verylongword") take three rows of 50 pixels |
| StyleProps.DigitsFirstRows | src/style/mod.rs:185-206 | a one-character word, a space, a five-character word and a space ("1 23456 ") fill two rows of 36 pixels |
| StyleProps.DigitsLastRows | src/style/mod.rs:185-206 | after a full row, words of five, five and three characters ("12345 61234 561") take three more rows |
| StyleProps.MeasureTextExamples | src/style/mod.rs:185-206 | all eight heights listed for the 6x8 font |
| LineIter.TabStop | src/rendering/line_iter.rs:246-267 | adding the rest to the next tab stop lands on a tab stop |
| LineIter.LineCursor.FitsInLine | src/rendering/line_iter.rs:159-195 | a width fits iff the position plus it stays within the line |
| LineIter.LineCursor.MoveCursor | src/rendering/line_iter.rs:129-131 | a move succeeds iff it fits, and then moves by that much; otherwise it reports the space left, which is less than asked |
| LineIter.LineCursor.NextTabWidth | src/rendering/line_iter.rs:246-267 | between 1 and the tab width, and lands on a tab stop |
| LineIter.SpaceConfig.Consume | src/rendering/line_iter.rs:212-244 | `n` spaces take at most `n` space widths, exactly that without a budget, and the budget never grows |
| LineIter.ElementHandler.constructor | src/rendering/line_iter.rs:482-494 | the handler starts with no events, as the recording `TestElementHandler` does (the `ElementHandler` trait at lines 48-68 records nothing by default) |
| LineIter.ElementHandler.Measure | src/rendering/line_iter.rs:52 | one character is measured as its glyph width |
| LineIter.ElementHandler.Whitespace | src/rendering/line_iter.rs:503-506 | records one whitespace event, as `TestElementHandler::whitespace` does for the trait method at lines 55-58 |
| LineIter.ElementHandler.PrintedCharacters | src/rendering/line_iter.rs:508-512 | records one printed-characters event, as `TestElementHandler::printed_characters` does for the trait method at lines 60-63 |
| LineIter.ElementHandler.MoveCursor | src/rendering/line_iter.rs:514-517 | records one cursor-move event, as `TestElementHandler::move_cursor` does for the trait method at lines 65-68 |
| LineIter.RenderLeadingSpaces | src/rendering/line_iter.rs:202-210 | leading spaces are drawn iff the text is left aligned |
| LineIter.RenderTrailingSpaces | src/rendering/line_iter.rs:197-200 | trailing spaces are never forced visible |
| LineIter.WordWidthAhead | src/rendering/line_iter.rs:101-127 | the width ahead never drops below what was already counted |
| LineIter.WordFitsAhead | src/rendering/line_iter.rs:159-195 | when the run ahead fits, a word or soft hyphen follows it, never a line break, and a first word or hyphen fits the cursor as it is |
| LineIter.IndexOfNbsp | src/rendering/line_iter.rs:415-445 | the first non-breaking space of a word, or None when there is none |
| LineIter.WordPrinted | src/rendering/line_iter.rs:415-445 | a word ends with printed characters; every other event is one space of the configured width (or none left in the budget); the space width is kept, and without a budget the configuration is unchanged |
| LineIter.WhitespaceDrawn | src/rendering/line_iter.rs:212-244 | drawing whitespace keeps the cursor in the line and the text ahead unchanged |
| LineIter.TabDrawn | src/rendering/line_iter.rs:246-267 | drawing a tab keeps the cursor in the line and the text ahead unchanged |
| LineIter.BreakStep | src/rendering/line_iter.rs:301-320 | a soft hyphen keeps the cursor in the line and the text ahead unchanged |
| LineIter.WordStep | src/rendering/line_iter.rs:322-352 | a word keeps the cursor in the line and the text ahead unchanged |
| LineIter.TokenStep | src/rendering/line_iter.rs:288-413 | handling any token keeps the cursor in the line and the text ahead unchanged |
| LineIter.Step | src/rendering/line_iter.rs:288-413 | each turn of the loop keeps the cursor in the line and, when it goes on, strictly shortens the text ahead |
| LineIter.Processed | src/rendering/line_iter.rs:288-413 | a line ends with the cursor still in the line |
| LineIter.LineElementParser.constructor | src/rendering/line_iter.rs:83-99 | a new line parser is on an empty line with nothing read ahead |
| LineIter.LineElementParser.NextWordWidth | src/rendering/line_iter.rs:101-127 | computes `WordWidthAhead` of the text ahead |
| LineIter.LineElementParser.MoveCursor | src/rendering/line_iter.rs:129-131 | moves the cursor as `LineCursor.MoveCursor` says, and only on success |
| LineIter.LineElementParser.LongestFittingSubstr | src/rendering/line_iter.rs:133-157 | splits a word at the longest prefix that fits the space left; the rest is None iff the prefix is the whole word |
| LineIter.LineElementParser.NextWordFits | src/rendering/line_iter.rs:159-195 | computes `WordFitsAhead` on a copy of the cursor and spaces |
| LineIter.LineElementParser.DrawWhitespace | src/rendering/line_iter.rs:212-244 | the new state is `WhitespaceDrawn` of the old |
| LineIter.LineElementParser.DrawTab | src/rendering/line_iter.rs:246-267 | the new state is `TabDrawn` of the old |
| LineIter.LineElementParser.PeekNextToken | src/rendering/line_iter.rs:269-273 | reads the next token into the text ahead without consuming it |
| LineIter.LineElementParser.ConsumeToken | src/rendering/line_iter.rs:275-277 | the parser moves to the text ahead |
| LineIter.LineElementParser.ConsumeStr | src/rendering/line_iter.rs:279-286 | the parser skips exactly the given string |
| LineIter.LineElementParser.Process | src/rendering/line_iter.rs:288-413 | the new state and the line end are `Processed` of the old state |
| LineIter.LineElementParser.ProcessToken | src/rendering/line_iter.rs:290-410 | one token is handled as `TokenStep` says |
| LineIter.LineElementParser.ProcessBreak | src/rendering/line_iter.rs:301-320 | a soft hyphen is handled as `BreakStep` says |
| LineIter.LineElementParser.ProcessWordToken | src/rendering/line_iter.rs:322-352 | a word is handled as `WordStep` says |
| LineIter.WordPrintedAt | src/rendering/line_iter.rs:420-437 | a word with a non-breaking space prints the part before it, one space, then the rest |
| LineIter.LineElementParser.PrintUpToNbsp | src/rendering/line_iter.rs:422-431 | prints the part before the non-breaking space, if any, then one space taken from the space configuration |
| LineIter.LineElementParser.ProcessWord | src/rendering/line_iter.rs:415-445 | the events and the space configuration are `WordPrinted` of the word |
| LineIterProps.EventsAppend | src/rendering/line_iter.rs:415-445 | printed text and space count are additive over events |
| LineIterProps.WithoutNbspAppend | src/rendering/line_iter.rs:415-445 | removing non-breaking spaces distributes over concatenation |
| LineIterProps.NoNbspUnchanged | src/rendering/line_iter.rs:415-445 | a word without non-breaking spaces is unchanged by their removal |
| LineIterProps.IndexOfNbspFirst | src/rendering/line_iter.rs:415-445 | the search finds the first non-breaking space |
| LineIterProps.WordPrintedSplit | src/rendering/line_iter.rs:415-445 | a word is printed up to its first non-breaking space, then one space, then the rest |
| LineIterProps.WithoutNbspAt | src/rendering/line_iter.rs:415-445 | removal around the first non-breaking space |
| LineIterProps.SplitEvents | src/rendering/line_iter.rs:415-445 | printed text and space count of a piece, a space and the rest |
| LineIterProps.WordPrintedKeepsText | src/rendering/line_iter.rs:415-445 | a word prints all its characters except the non-breaking spaces, with one space event per non-breaking space |
| LineIterProps.NbspDrawnAsSpace | src/rendering/line_iter.rs:671-683 | a non-breaking space between two pieces is drawn as one space between them |
| LineIterProps.OneNbsp | src/rendering/line_iter.rs:415-445 | the events of a word with one non-breaking space |
| LineIterProps.WordPrintedWhole | src/rendering/line_iter.rs:415-445 | a word without non-breaking spaces is one printed event of its width |
| LineIterProps.ProcessedProgress | src/rendering/line_iter.rs:288-413 | a line started on `n` characters leaves fewer than `n` |
| LineIterProps.ProcessMakesProgress | src/rendering/line_iter.rs:553-580 | every line consumes part of a non-empty text, even a line too narrow for one character |
| LineIterProps.SuffixTrans | src/rendering/line_iter.rs:269-286 | a suffix of a suffix is a suffix |
| LineIterProps.StepDoneResumesInText | src/rendering/line_iter.rs:288-413 | a step that ends the line leaves a suffix of the text, empty at end of text |
| LineIterProps.ProcessedResumesInText | src/rendering/line_iter.rs:288-413 | the next line starts on a suffix of this line's text; end of text leaves nothing |
| LineIterProps.WordThatFitsIsPrinted | src/rendering/line_iter.rs:322-352 | a word that fits is printed whole, advances the cursor by its width and makes the line non-empty |
| LineIterProps.WordWrapsWhole | src/rendering/line_iter.rs:322-352 | on a line with content, a word that does not fit ends the line undrawn and starts the next |
| LineIterProps.OversizedWordIsSplit | src/rendering/line_iter.rs:322-352 | on an empty line, a word too wide is split at the longest fitting prefix, which is printed; the rest starts the next line |
| LineIterProps.UndrawableWordIsSkipped | src/rendering/line_iter.rs:553-580 | a line too narrow for a word's first character skips the word and ends |
| LineIterProps.LeadingWhitespaceHidden | src/rendering/line_iter.rs:212-244 | leading whitespace of a line that is not left aligned is not drawn and does not move the cursor |
| LineIterProps.TrailingWhitespaceHidden | src/rendering/line_iter.rs:212-244 | whitespace after content is drawn or skipped by its width as its budget says |
| LineIterProps.TabReachesTabStop | src/rendering/line_iter.rs:686-709 | a tab that fits moves the cursor forward onto a tab stop |
| LineIterProps.SoftHyphenInvisibleWhenWordFits | src/rendering/line_iter.rs:583-596 | a soft hyphen in a word that fits draws nothing |
| LineIterProps.SoftHyphenBreaksLine | src/rendering/line_iter.rs:597-624 | where the next word does not fit, a hyphen is drawn and the line breaks |
| LineIterProps.LineEnds | src/rendering/line_iter.rs:399-413 | out of text the line ends at end of text; a newline or carriage return ends it, consumed, with its own line-end type |
| LineIterProps.OverflowingWhitespaceIsCut | src/rendering/line_iter.rs:234-241 | a whitespace run that does not fit draws as many whole spaces as fit, moves no cursor, and is consumed whole |
| LineIterProps.SoftHyphenOnEmptyLine | src/rendering/line_iter.rs:301-320 | on an empty line a soft hyphen before a word draws the hyphen when it fits and the line goes on, still empty |
| LineIterProps.SoftHyphenWithoutWord | src/rendering/line_iter.rs:301-320 | a soft hyphen with no word after it is passed over without effect |
| LineIterExamples.WordFitsStep | src/rendering/line_iter.rs:322-352 | a word without non-breaking spaces that fits is printed with its width and the line goes on after it |
| LineIterExamples.TabStep | src/rendering/line_iter.rs:246-267 | a tab that fits moves to the next tab stop, drawn as one space iff what follows fits |
| LineIterExamples.HyphenOnEmptyLineStep | src/rendering/line_iter.rs:301-320 | a soft hyphen starting a line before a word is drawn, and the line stays empty |
| LineIterExamples.TabsFirstLine | src/rendering/line_iter.rs:685-699 | the first line of `tabs` for any words of those lengths: a word, a tab drawn to the stop, a word, then the newline |
| LineIterExamples.TabsSecondLine | src/rendering/line_iter.rs:700-708 | the second line of `tabs` for any words of those lengths: two drawn tabs, and a last tab that only moves the cursor |
| LineIterExamples.TabsExampleFirstLine | src/rendering/line_iter.rs:685-699 | `tabs`, first line: the events listed, ending at the newline |
| LineIterExamples.TabsExampleSecondLine | src/rendering/line_iter.rs:700-708 | `tabs`, second line: the events listed, ending at end of text |
| LineIterExamples.SoftHyphenFirstLine | src/rendering/line_iter.rs:596-624 | a word then a soft hyphen whose next word does not fit: the line breaks, with the hyphen drawn iff it fits |
| LineIterExamples.SoftHyphenLineStart | src/rendering/line_iter.rs:611-624 | a line starting at a soft hyphen draws the hyphen, then the word |
| LineIterExamples.SoftHyphenExample | src/rendering/line_iter.rs:596-609 | `soft_hyphen`: "sam-", then "ple" |
| LineIterExamples.SoftHyphenWrappedExample | src/rendering/line_iter.rs:611-624 | `soft_hyphen_wrapped`: "sam", then "-" and "mm" |
| LineIterExamples.SplitFourLetters | src/rendering/line_iter.rs:711-716 | a four-letter word on a two-character line prints its first two letters and leaves the rest for the next line |
| LineIterExamples.CursorLimitExample | src/rendering/line_iter.rs:711-716 | `cursor_limit`: "So" |
| Middleware.DefaultNextToken | src/middleware.rs:39-57 | the default hook pulls one token, and yields one exactly when text remains |
| Middleware.NoMiddlewarePassesTokensThrough | src/middleware.rs:87-95 | the middleware that does nothing passes every token through |
| Middleware.NoMiddlewareRendersTokensUnchanged | src/middleware.rs:52-57 | the default `render_token` hands every token back unchanged |
| Middleware.MiddlewareWrapper.constructor | src/middleware.rs:122-132 | starts measuring, with nothing peeked |
| Middleware.MiddlewareWrapper.NewLine | src/middleware.rs:134-141 | forgets the peeked token and runs the line hook |
| Middleware.MiddlewareWrapper.SetState | src/middleware.rs:143-146 | sets the processing state |
| Middleware.MiddlewareWrapper.RenderToken | src/middleware.rs:148-154 | tokens pass unchanged while measuring; while rendering, the hook decides, and the default hook passes them unchanged |
| Middleware.MiddlewareWrapper.PeekToken | src/middleware.rs:156-165 | returns the cached token unchanged, or asks the hook once and caches its answer with the length it stands for |
| Middleware.MiddlewareWrapper.ConsumePeekedToken | src/middleware.rs:167-177 | advances the text by exactly the peeked length and clears the cache |
| Middleware.MiddlewareWrapper.ReplacePeekedToken | src/middleware.rs:179-186 | replaces the cached token and its length |
| Middleware.MiddlewareWrapper.OnStartRender | src/middleware.rs:188-197 | clears the cache and runs the start hook |
| Middleware.PeekThenConsume | src/middleware.rs:156-177 | peeking then consuming advances the text by the tokens the hook pulled; with no middleware, by one token |
| Middleware.NextRenderedToken | src/middleware.rs:39-57 | with the default hooks, peeking, consuming and rendering yield exactly the next token of the text, and the text advances by one token |
| Plugin.SkipChars | src/plugin/mod.rs:168-194 | the text after its first `n` characters, or nothing when shorter |
| Plugin.Remainder | src/plugin/mod.rs:168-194 | what is left of a word or whitespace token after taking `len` characters |
| Plugin.RemainderOfNothing | src/plugin/mod.rs:168-194 | taking nothing leaves the token unchanged |
| Plugin.RemainderComposes | src/plugin/mod.rs:168-194 | taking `a` then `b` characters is taking `a + b` |
| Plugin.RemainderKeepsWhitespaceText | src/plugin/mod.rs:168-194 | a whitespace token keeps one character per counted space |
| Plugin.PluginWrapper.constructor | src/plugin/mod.rs:105-113 | starts measuring, with nothing cached |
| Plugin.PluginWrapper.IntoInner | src/plugin/mod.rs:115-117 | hands back the plugin |
| Plugin.PluginWrapper.NewLine | src/plugin/mod.rs:134-136 | runs the line hook |
| Plugin.PluginWrapper.SetState | src/plugin/mod.rs:138-140 | sets the processing state |
| Plugin.PluginWrapper.RenderToken | src/plugin/mod.rs:143-148 | tokens pass unchanged while measuring; while rendering, the hook decides |
| Plugin.PluginWrapper.PeekToken | src/plugin/mod.rs:150-158 | returns the cached token with text and plugin unchanged, or asks the plugin, caches its token and advances the text by what it pulled |
| Plugin.PluginWrapper.ConsumePeekedToken | src/plugin/mod.rs:160-166 | clears the cache |
| Plugin.PluginWrapper.ConsumePartial | src/plugin/mod.rs:168-194 | the cached token becomes what is left of it after `len` characters |
| Plugin.PluginWrapper.OnStartRender | src/plugin/mod.rs:196-206 | clears the cache and runs the start hook |
| Plugin.PluginWrapper.OnRenderingFinished | src/plugin/mod.rs:208-210 | runs the finishing hook |
| Color.ToBinaryColor | src/style/color.rs:20-29 | a pixel is on iff the colour is white |
| Color.ToRgb555 | src/style/color.rs:38-43 | each channel keeps its top five bits |
| Color.ToRgb565 | src/style/color.rs:45-50 | red and blue keep five bits, green six |
| Color.ToRgb888 | src/style/color.rs:31-36 | each channel is carried over unchanged, so the colour can be read back from the result |
| Color.Rgb888Lossless | src/style/color.rs:31-36 | the 24-bit conversion is injective |
| Color.Rgb555RoundTrip | src/style/color.rs:38-43 | a 15-bit colour widened to 24 bits converts back to itself |
| Color.Rgb565RoundTrip | src/style/color.rs:45-50 | a 16-bit colour widened to 24 bits converts back to itself |
| Color.ConversionsKeepOrder | src/style/color.rs:38-50 | brighter channels stay at least as bright |
| Color.WhiteIsFullIntensity | src/style/color.rs:20-50 | white is on, and full intensity in every format |

## Left out

- src/rendering/cursor.rs is not part of this model. `LineCursor` models what the layout relies on:
  - a position within a line width;
  - a move that succeeds only when it fits and otherwise leaves the cursor where it was;
  - the distance to the next tab stop.
- src/rendering/space_config.rs is not part of this model. `SpaceConfig` models a space width and an optional budget of spaces that still get a width.
- The revision of the tokenizer that line_iter.rs and plugin/mod.rs read is not part of this model. `TextTokens.Lex` follows src/parser.rs, plus tab tokens and U+00AD as a soft-hyphen break drawn as "-".
- ANSI escape sequences are left out: escape tokens, `sgr` colour changes, and cursor moves given by escape codes, including negative moves. The tokenizer that produces them is not shown.
- Drawing is left out: `post_render`, pixel output, geometry and the colour of drawn text. The layout is observed through the events a recording handler receives.
- The `RefCell` of `MiddlewareWrapper` (src/middleware.rs:107), the `UnsafeCell` of `PluginWrapper` (src/plugin/mod.rs:84) and the plugin's private module are left out. They add interior mutability, and the `RefCell`'s run-time borrow checks; the layout sees no behaviour from them.
- Hashing and `Debug`/`Clone` derivations are left out.
- Handler errors are left out: the recording handler never fails, so their propagation through `?` is not modelled.
- Byte offsets and lengths into the text are counted in characters. Every offset the code takes falls on a character boundary, so the two agree. `Parser.Remaining` alone is in UTF-8 bytes, as the source documents.
- Fonts have no kerning: a string is as wide as its characters' advances.
- Style.MeasureText: does not model `u32` overflow of the width sums or of the height product; integers are unbounded.
- FontExt.MeasureLine: does not model `u32` overflow of the running width.
- LineIter.LineElementParser.NextWordFits: the source's saturating casts to `i32` are not modelled; widths are unbounded.
- Style.MeasureText: the tokenizer of src/parser.rs yields carriage-return tokens, which the source's `match` does not list. A carriage return inside a line is treated like the newline arm, adding no rows.
- Style.MeasureText: every space character of a whitespace run is measured as wide as ' ', as the source does.
- `str::lines` follows current Rust: each "\r\n" line ending loses its '\r', and a text ending in '\n' has no empty last line.
- LineIter.WhitespaceDrawn and LineIter.LineElementParser.DrawWhitespace: a run that does not fit and is narrower than one pixel per space makes the source divide by zero (`space_width / space_count` is 0) and panic. The model draws nothing for such a run and consumes it.
- LineIter.LineElementParser.PeekNextToken and LineIter.Step: tokens are read from the text as with `NoMiddleware`. The source reads them through `middleware.next_token`. A middleware that rewrites tokens is modelled on its own in `Middleware`, not composed with the line layout.
- The unit test `nbsp_issue` and the other line layout tests not listed under "## Model" are not proved as instances; the behaviours they check are covered by the `LineIterProps` lemmas.
- Plugin.PluginWrapper.ConsumePartial: requires `len` to be at most the whitespace count, because the source's unsigned subtraction would underflow otherwise.
- `Rgb::new` and `LineMeasurement::new` are the datatype constructors. `LineMeasurement::empty` is `EMPTY_MEASUREMENT`.
