# LedgerParse worker parsing core, in Dafny

This project models the parsing layer of the LedgerParse Python worker
(`python-worker/main.py`). That layer turns the raw output of PDF and OCR
engines into bank-statement transactions: word boxes from pdfplumber, the
Tesseract data dictionary, EasyOCR result triples and GMFT table rows. The
project proves properties of the model. The worker's helpers are imperative:
they loop and update local lists and dictionaries. Each helper is modelled
as a Dafny `method` with the same loop, proved equal to a functional
specification, and the promised properties are lemmas about that
specification.

Modules, one per concern of the worker:

- `Records`: the word record, the six columns, the `Transaction` record,
  and the helpers `abs`, `min`, `max`, `sum` and "keep every result that is
  not `None`".
- `Text`: the string operations the worker uses (ASCII `lower`, `strip`,
  `in`, `replace`, `split`/`join`, slicing to 200 characters).
- `Decimals`: Python `float()` on decimal strings.
- `Sorting`: Python's stable `sorted` with a key.
- `ColumnAnchors`: `detect_column_anchors`.
- `LineGrouping`: `group_words_by_line`.
- `WordPatterns`: the skip patterns, date patterns and number pattern of
  `parse_line_with_columns`.
- `ColumnParser`: `parse_line_with_columns`, the column-aware line parser.
- `WorkedLine`: that parser on one concrete line, with and without a
  balance anchor.
- `NaiveParser`: `parse_line_to_transaction`, the parser that takes the
  last number on the line.
- `OcrOutput`: `parse_tesseract_output` and `parse_easyocr_output`.
- `TableRows`: `dataframe_row_to_transaction`, for GMFT rows.
- `Balances`: `extract_balances_from_text`.
- `Aggregation`: the confidence and balance expressions inside the
  extraction endpoints.

Regular expressions are written as recognisers for the specific patterns
the worker uses; no general regex engine is modelled. `re.search` is a
leftmost search and `re.findall` a left-to-right scan of non-overlapping
matches. Each is generic over the match end at each index. Amounts are
exact reals. Python `round` is round-half-even.

The worker has two line parsers, and they treat a line that ends in an
amount and a running balance differently. `parse_line_with_columns` tells
the two apart by x position. `WorkedLine` proves what it returns on
"01/15/2024 GROCERY STORE 45.00 1,234.56": the amount is 45.00 and the
balance 1234.56. `parse_line_to_transaction`, which the OCR paths use, takes
the last number on the line as the amount, so the running balance becomes
the amount. The model follows the code: `NaiveParser.NaiveFields` states the
last-match rule, and `NaiveParser.UngroupedThousandsSplit` shows how an
ungrouped `1234.56` is split into two matches.

## Model

| member | source | states |
|---|---|---|
| `Records.FoundFromResults` | python-worker/main.py:178-179 | A transaction is kept exactly when it is some per-line result: every kept one comes from a result and every non-`None` result is kept. The list is empty exactly when every result is `None`. |
| `Records.FoundConcat` | python-worker/main.py:178-179 | Keeping the results of two runs of lines gives the kept results of the first run followed by those of the second, so order is preserved. |
| `Aggregation.NativeConfidence` | python-worker/main.py:185 | The native confidence is 0.85 or 0.0, and it is positive exactly when some transaction was found. |
| `Aggregation.MeanConfidenceBounds` | python-worker/main.py:503 | The Tesseract/EasyOCR/GMFT confidence is the default (0.5, or 0.7 for GMFT) when there are no transactions. Otherwise it lies within any bounds that every transaction's confidence respects. |
| `Aggregation.UniformConfidence` | python-worker/main.py:573 | When every transaction has the same confidence, the mean is that confidence. |
| `Aggregation.GmftConfidence` | python-worker/main.py:665 | For GMFT rows, the endpoint confidence is 0.85 when some row gives a transaction and 0.7 otherwise. |
| `Aggregation.GmftBalances` | python-worker/main.py:654-663 | The loop over GMFT transactions returns the first non-null balance as opening and the last non-null balance as closing. |
| `Aggregation.FirstBalanceIsFirst` | python-worker/main.py:659-662 | The opening balance is `None` exactly when no transaction has a balance. Otherwise it is the balance of a transaction with no earlier non-null balance. |
| `Aggregation.LastBalanceIsLast` | python-worker/main.py:659-663 | The closing balance is `None` exactly when no transaction has a balance. Otherwise it is the balance of a transaction with no later non-null balance. |
| `Aggregation.GmftBalancesFound` | python-worker/main.py:654-663 | Opening and closing are both set or both `None`; they are set exactly when some transaction has a balance; with one transaction they are equal. |
| `ColumnAnchors.DetectColumnAnchors` | python-worker/main.py:214-248 | Returns exactly the six column keys, each the centre of the last header word that names that column among the first 100 words, or `None`. |
| `ColumnAnchors.ScanHeader` | python-worker/main.py:231-246 | The loop that overwrites anchors leaves each column at the centre of the last word classified into it. |
| `ColumnAnchors.HeaderWords` | python-worker/main.py:229 | The inspected words are the first `min(100, len(words))` words, in order. |
| `ColumnAnchors.FirstNamedIsFirstMatch` | python-worker/main.py:235-246 | A header text selects the first column in the order date > description > debit > credit > amount > balance whose keyword test holds, and selects nothing exactly when no test holds. |
| `ColumnAnchors.BalanceNeverAmount` | python-worker/main.py:243-246 | A header containing "balance" always selects a column, and never the amount column. |
| `ColumnAnchors.EveryColumnListed` | python-worker/main.py:219-226 | The anchor dictionary's key set holds every column. |
| `ColumnAnchors.LastAnchorByNone` | python-worker/main.py:231-246 | An anchor stays unset exactly when no inspected word is classified into its column. |
| `ColumnAnchors.LastAnchorByLast` | python-worker/main.py:231-246 | A set anchor is the centre `(x0+x1)/2` of a word classified into its column, and no later word is. |
| `ColumnAnchors.LastAnchorIsLastMatch` | python-worker/main.py:231-246 | With the worker's own classification (lower-cased, stripped text), the anchor is unset exactly when no word names the column; otherwise it is the centre of the last word that does. |
| `ColumnAnchors.OnlyHeaderInspected` | python-worker/main.py:229 | Words after the first 100 never change the anchors. |
| `ColumnAnchors.OneWordSetsAtMostOneAnchor` | python-worker/main.py:231-246 | A further header word changes only the anchor of the column it names, and sets that anchor to its own centre. |
| `LineGrouping.RoundHalfEven` | python-worker/main.py:256 | Python `round`: the result is within one half of the argument, and ties go to the even neighbour. |
| `LineGrouping.GroupWordsByLine` | python-worker/main.py:251-265 | The keys are exactly the rounded line keys of the words. Each line holds the words with that key, in input order, stably sorted by `x0`. |
| `LineGrouping.BucketWords` | python-worker/main.py:255-259 | After the first loop, a key is present exactly when some word has it. Its list holds those words in input order. The order the dictionary received its keys lists each key once. |
| `LineGrouping.SortLines` | python-worker/main.py:262-263 | The second loop keeps the key set and replaces each list by its stable sort on `x0`. |
| `LineGrouping.KeysHaveWords` | python-worker/main.py:255-259 | A key is a line key exactly when its line is non-empty. |
| `LineGrouping.LineOfCounts` | python-worker/main.py:255-259 | The line of key `y` holds each word with key `y` as often as the input does, and no other word. |
| `LineGrouping.LineOfNonEmpty` | python-worker/main.py:257-259 | Every key that occurs has a non-empty line. |
| `LineGrouping.LineOfOutsideKeys` | python-worker/main.py:257-259 | A value that is no word's key has an empty line. |
| `LineGrouping.LineKeyNear` | python-worker/main.py:256 | Every key is a multiple of the tolerance and lies within half a tolerance of its word's `top`. |
| `LineGrouping.ByX0StrictOrder` | python-worker/main.py:263 | Comparing by `x0` is a strict weak order: irreflexive and transitive, and words with equal `x0` are interchangeable. |
| `LineGrouping.GroupedLinesStable` | python-worker/main.py:262-263 | Within each line, words with equal `x0` keep their input order. |
| `LineGrouping.GroupedLines` | python-worker/main.py:251-265 | Every word lands in exactly one line (the one of its key) with its multiplicity. Every line is non-empty and sorted by `x0`. Every key is a multiple of the tolerance. |
| `Sorting.SortBySorted` | python-worker/main.py:263 | Stable `sorted` with a strict-order key returns a sorted permutation of its input. |
| `Sorting.SortByStable` | python-worker/main.py:263 | `sorted` is stable: for any element, the elements with an equal key appear in the output in the same order as in the input. |
| `WordPatterns.DateTextNonEmpty` | python-worker/main.py:331-338 | A word accepted as a date has at least three characters. |
| `WordPatterns.SignedValue` | python-worker/main.py:314-318 | A parsed numeric word is non-positive when its text holds "(" or "-", and non-negative otherwise. |
| `WordPatterns.NotSkipLine` | python-worker/main.py:286-296 | A line with no 'a', 'u' or 'w' in either case matches no skip pattern. |
| `WordPatterns.PlainNumberWord` | python-worker/main.py:309-311 | Digits, a point and digits, with or without thousands commas, match the number pattern once the commas are removed, and `strip()` leaves them unchanged. |
| `WordPatterns.PlainNumberValue` | python-worker/main.py:314-318 | Such a word converts, without a sign, to the decimal value its digits spell. |
| `WordPatterns.LetterWordNotNumeric` | python-worker/main.py:311 | A text starting with a letter does not match the number pattern. |
| `WordPatterns.DateLikeNotNumeric` | python-worker/main.py:311 | A text starting with two digits and a date separator does not match the number pattern. |
| `WordPatterns.NoMinusLeft` | python-worker/main.py:316 | Removing "(", ")" and "-" leaves no minus sign, so the magnitude is parsed unsigned. |
| `ColumnParser.CollectNumericValues` | python-worker/main.py:306-326 | The numeric-values loop returns, in word order, the value, centre and text of each word that matches the number pattern and converts. |
| `ColumnParser.NumericValuesFromWords` | python-worker/main.py:307-324 | Every numeric value comes from some word of the line. |
| `ColumnParser.FindDate` | python-worker/main.py:329-339 | The date is the stripped text of the first of the first three words that matches either date pattern. |
| `ColumnParser.DateFromFirstThree` | python-worker/main.py:329-339 | A found date is one of the first three words and matches a date pattern. No date is found exactly when none of them matches. A found date is never empty, so `if not date` rejects exactly the lines without one. |
| `ColumnParser.FirstDateIsFirst` | python-worker/main.py:329-339 | The date search returns a matching word's text, and returns nothing exactly when no word matches. |
| `ColumnParser.ByXStrictOrder` | python-worker/main.py:349 | Ordering numbers by `x` is a strict weak order. |
| `ColumnParser.FirstNear` | python-worker/main.py:352-353 | The index of the balance candidate lies within the sorted values. |
| `ColumnParser.FirstNearIsFirst` | python-worker/main.py:352-360 | The chosen balance is within 50 of the anchor, and no earlier value in x order is. |
| `ColumnParser.NoNearFromAnywhere` | python-worker/main.py:352-360 | When no value is within 50 of the anchor, no balance is chosen. |
| `ColumnParser.LastOther` | python-worker/main.py:356-358 | The amount index after the inner loop is a different value from the balance: the rightmost one, or the second rightmost when the balance is rightmost. |
| `ColumnParser.AssignValues` | python-worker/main.py:345-374 | The three-way branch yields the amount and balance of the column rules. The type is debit for a negative amount, credit otherwise, and unknown when no amount was assigned. |
| `ColumnParser.AssignAnchored` | python-worker/main.py:345-360 | With a balance anchor, the values are sorted by x (a sorted permutation). The balance is the first value within 50 of the anchor, and the amount is the rightmost other value. |
| `ColumnParser.AssignFallback` | python-worker/main.py:362-369 | Without an anchor, the balance is the rightmost value and the amount the second rightmost. |
| `ColumnParser.AssignSingle` | python-worker/main.py:371-374 | A lone number is the amount and the balance stays `None`. |
| `ColumnParser.AssignFromNumbers` | python-worker/main.py:344-374 | An assigned amount or balance is always one of the line's numeric values, and a balance is only assigned together with an amount. |
| `ColumnParser.NoNearValueNoTransaction` | python-worker/main.py:345-377 | Two or more numbers with a balance anchor but none within 50 of it give no transaction; there is no fallback to the rightmost rule. |
| `ColumnParser.TwoValuesAnchored` | python-worker/main.py:345-360 | Two numbers with an anchor near only the right one: the left one is the amount and the right one the balance. |
| `ColumnParser.TwoValuesAnchoredLeft` | python-worker/main.py:345-360 | Two numbers with an anchor near the left one: the left one is the balance and the right one the amount. |
| `ColumnParser.TwoValuesFallback` | python-worker/main.py:362-369 | Two numbers and no anchor: the left one is the amount and the right one the balance. |
| `ColumnParser.DecimalWordValue` | python-worker/main.py:306-324 | A word spelling digits, a point and digits, with or without thousands commas, yields the value of those digits at its centre, with its text. |
| `ColumnParser.LetterWordNoValue` | python-worker/main.py:306-324 | A word starting with a letter yields no numeric value. |
| `ColumnParser.DateWordNoValue` | python-worker/main.py:306-324 | A word starting like "01/" yields no numeric value. |
| `ColumnParser.NumberAfter` | python-worker/main.py:306-324 | A further word that holds a number appends that number to the numeric values. |
| `ColumnParser.NoNumberAfter` | python-worker/main.py:306-324 | A further word that holds no number leaves the numeric values unchanged. |
| `WorkedLine.GroceryNumbers` | python-worker/main.py:306-324 | On "01/15/2024 GROCERY STORE 45.00 1,234.56", the numeric values are 45.00 at x 300 and 1234.56 at x 420, in that order. |
| `WorkedLine.GroceryDate` | python-worker/main.py:328-339 | The date of that line is "01/15/2024". |
| `WorkedLine.GroceryNotSkipped` | python-worker/main.py:285-296 | That line matches no skip pattern. |
| `WorkedLine.GroceryLineFallback` | python-worker/main.py:362-369 | Without a balance anchor, `parse_line_with_columns` on that line returns a credit dated "01/15/2024" with amount 45.00 and balance 1234.56. |
| `WorkedLine.GroceryLineAnchored` | python-worker/main.py:345-360 | With a balance anchor within 50 of 1,234.56 and not of 45.00, it returns the same amount 45.00 and balance 1234.56. |
| `WorkedLine.GroceryLineAnchoredLeft` | python-worker/main.py:345-360 | With a balance anchor within 50 of 45.00 instead, the anchor decides: the balance is 45.00 and the amount 1234.56. |
| `WorkedLine.AssignedLine` | python-worker/main.py:388-405 | A dated, unskipped line whose numbers are assigned an amount and a balance gives a transaction with that date, `abs` of the amount, its sign's type and that balance. |
| `ColumnParser.DescriptionParts` | python-worker/main.py:380-386 | No description part equals the date or the text of a numeric value. |
| `ColumnParser.Description` | python-worker/main.py:388 | The description has at most 200 characters. |
| `ColumnParser.BuildDescription` | python-worker/main.py:379-388 | The description loop joins the kept word texts, strips and truncates to 200. |
| `ColumnParser.DescriptionOmitsDateAndNumbers` | python-worker/main.py:380-386 | The description parts omit the date word and every numeric word. |
| `ColumnParser.LineBoxBounds` | python-worker/main.py:397-403 | The box carries the page and encloses every word. Each of its four edges is attained by some word. |
| `ColumnParser.ParseLineWithColumns` | python-worker/main.py:268-405 | The parser method returns what the line specification gives, with the loops over numbers, date and description. |
| `ColumnParser.ParseLineNone` | python-worker/main.py:279-377 | No transaction exactly when the line is empty, matches a skip pattern, has no date among its first three words, or gets no amount. |
| `ColumnParser.ParsedTransaction` | python-worker/main.py:379-405 | A transaction has the found date and a non-negative amount, `abs` of the signed one. Its type is debit exactly for a negative amount, never unknown. It has the assigned balance and confidence 0.85. Its description is the one built from the words other than the date and the numbers, at most 200 characters. It has the line's box and the joined text. |
| `NaiveParser.MatchesSkipPattern` | python-worker/main.py:785-794 | The skip loop returns true exactly when some skip pattern matches the line, case-insensitively. |
| `NaiveParser.DateEndAt` | python-worker/main.py:797 | A date match spans 6 to 10 characters within the text. |
| `NaiveParser.SearchFromIsLeftmost` | python-worker/main.py:797-798 | `re.search` finds nothing exactly when no position matches; otherwise it returns the leftmost match. |
| `NaiveParser.AmountEndAt` | python-worker/main.py:801 | An amount match is non-empty and lies within the text. |
| `NaiveParser.FindAllFromOccur` | python-worker/main.py:801 | Every `re.findall` result is the text of a match of the pattern at some position at or after the scan's start. |
| `NaiveParser.FindAllFromNone` | python-worker/main.py:801-803 | With no match anywhere, `re.findall` returns an empty list. |
| `NaiveParser.AmountMatchHasDigit` | python-worker/main.py:801 | Every amount match holds a digit. |
| `NaiveParser.UngroupedThousandsSplit` | python-worker/main.py:801 | A run of four or more digits without a comma is matched three digits at a time, so "1234.56" yields "123" then "4.56". |
| `NaiveParser.SignedAmount` | python-worker/main.py:806-813 | The parsed amount is non-positive when the match holds "(" or "-", and non-negative otherwise. |
| `NaiveParser.NaiveDescription` | python-worker/main.py:816-821 | The description has at most 200 characters. |
| `NaiveParser.BuildNaiveDescription` | python-worker/main.py:816-821 | The removal loop removes the date and every amount match in turn, then collapses whitespace, strips and truncates. |
| `NaiveParser.ParseLineToTransaction` | python-worker/main.py:780-849 | The naive parser method returns what the naive specification gives. |
| `NaiveParser.BuildTransaction` | python-worker/main.py:796-849 | From the date and amount matches, builds the transaction or `None` as the naive specification does. |
| `NaiveParser.NoDigitNoTransaction` | python-worker/main.py:800-803 | A line without a digit gives no transaction. |
| `NaiveParser.NaiveFields` | python-worker/main.py:780-849 | No transaction exactly when a skip pattern matches, there is no amount match, or the last match does not convert. Otherwise the amount is `abs` of the last match's signed value. The type is debit/credit/unknown for negative/positive/zero, and debit only when the match holds "(" or "-". The balance is `None`; confidence and raw text pass through; the date is the leftmost date match. The description is the text with the date and every amount match removed, whitespace collapsed, at most 200 characters. The box is the one built from the word rectangles. |
| `NaiveParser.WordBoxesBound` | python-worker/main.py:827-838 | The box built from word rectangles carries the page and encloses every rectangle. Each edge is attained by some rectangle. |
| `OcrOutput.ParseAndKeep` | python-worker/main.py:726-728 | Parsing one more line appends its transaction, if any, to the list. |
| `OcrOutput.PositivesKeepPositive` | python-worker/main.py:724 | The kept confidences are exactly the positive ones of the line, each as often as it occurs; none are kept exactly when all are non-positive. |
| `OcrOutput.LineConfidenceRange` | python-worker/main.py:724-726 | The Tesseract line confidence is between 0 and 1. It is 0 exactly when no confidence is positive (no division by zero). |
| `OcrOutput.ParseTesseractOutput` | python-worker/main.py:696-730 | The Tesseract method returns the transactions of its lines in order of first appearance, each line's words joined, with the mean positive confidence over 100 and the word rectangles. |
| `OcrOutput.GroupTesseractWords` | python-worker/main.py:701-719 | The grouping loop records each line number with a non-blank word once, in first-appearance order. Each line's list holds exactly its non-blank words, in input order. |
| `OcrOutput.ParseTessLines` | python-worker/main.py:722-728 | The second loop parses the lines in dictionary order and keeps every transaction. |
| `OcrOutput.InputsOfLineWords` | python-worker/main.py:722-726 | The parser inputs built from the grouped dictionary equal those built from the words directly. |
| `OcrOutput.LineOrderMembers` | python-worker/main.py:702-712 | A line number is listed exactly when some non-blank word carries it, and then its line is non-empty. |
| `OcrOutput.LineOrderDistinct` | python-worker/main.py:706-711 | No line number is listed twice. |
| `OcrOutput.LineOrderByFirstAppearance` | python-worker/main.py:722 | Lines are visited in the order of their first non-blank word. |
| `OcrOutput.LineWordsPartition` | python-worker/main.py:702-713 | A line holds every non-blank word with its number, with its multiplicity, and no other word. |
| `OcrOutput.TessStep` | python-worker/main.py:702-719 | One word more adds its line number when it is new and not blank, and extends exactly its own line. |
| `OcrOutput.ReadingOrderStrict` | python-worker/main.py:738 | The (y, x) reading order is a strict weak order. |
| `OcrOutput.SplitLines` | python-worker/main.py:740-755 | The `current_line`/`current_y` loop splits the sorted items into the lines of the 20-unit rule. |
| `OcrOutput.YLinesFlatten` | python-worker/main.py:744-755 | The lines partition the sorted items in order: concatenated, they give back the input. |
| `OcrOutput.YLinesNonEmpty` | python-worker/main.py:750-755 | No line is empty. |
| `OcrOutput.YLinesNear` | python-worker/main.py:746-748 | Consecutive items of a line differ in y by less than 20. |
| `OcrOutput.YLinesFar` | python-worker/main.py:749-753 | Each new line starts with an item whose y differs by 20 or more from the previous item. |
| `OcrOutput.CornerOwner` | python-worker/main.py:763-764 | Every coordinate in `all_x`/`all_y` belongs to one of the line's items. |
| `OcrOutput.ParseEasyOcrOutput` | python-worker/main.py:733-777 | The EasyOCR method returns the transactions of the y-lines of the (y, x)-sorted items, in order. |
| `OcrOutput.ParseEasyLines` | python-worker/main.py:758-775 | The line loop parses each line in order and keeps every transaction. |
| `OcrOutput.ParseEasyLine` | python-worker/main.py:759-775 | One line more: its text, mean confidence and box are handed to the naive parser and the transaction kept. |
| `OcrOutput.EasyReadingOrder` | python-worker/main.py:738-755 | The sorted items are a sorted permutation of the input, items at the same (y, x) keep their input order, and the lines partition them in order. |
| `OcrOutput.EasyConfidenceRange` | python-worker/main.py:760 | With item confidences in [0, 1], the line confidence is in [0, 1]. |
| `OcrOutput.EasyBoxBounds` | python-worker/main.py:763-771 | The line box carries the page and encloses both corners of every item. All four edges are attained by a corner of some item, so it is the smallest such box. |
| `TableRows.CellText` | python-worker/main.py:865-868 | A used cell's text is non-empty and not "nan". |
| `TableRows.DataframeRowToTransaction` | python-worker/main.py:852-910 | The row method returns the transaction the cell scan specifies. |
| `TableRows.ReadCell` | python-worker/main.py:870-896 | The `elif` chain updates the five variables as one step of the scan for a used cell. |
| `TableRows.StepTexts` | python-worker/main.py:870-873 | A used date cell sets the date and a used description/memo/detail cell the description. Other cells leave both alone. |
| `TableRows.StepBalance` | python-worker/main.py:886-890 | A balance cell that converts sets the balance; every other cell leaves it alone. |
| `TableRows.StepPosted` | python-worker/main.py:874-885 | A debit/withdrawal cell that converts sets a negative amount and debit. A credit/deposit cell sets a positive amount and credit. |
| `TableRows.StepAmountCell` | python-worker/main.py:891-896 | An amount cell is used only when no amount is set yet and its value converts; parentheses mean negative. |
| `TableRows.ScanKeepsLast` | python-worker/main.py:863-890 | After the loop, the date, description and balance come from the last used cell of their kind. |
| `TableRows.ScanResolvesAmount` | python-worker/main.py:863-896 | After the loop, the amount and type come from the last converting debit/credit cell if any. Otherwise they come from the first converting amount cell, typed by its sign. Otherwise the amount is `None` and the type unknown. |
| `TableRows.TypeAgreesWithAmount` | python-worker/main.py:861-896 | The type is unknown exactly when no amount was set. A negative amount is a debit and a positive one a credit. |
| `TableRows.LastPostedSign` | python-worker/main.py:874-885 | The last debit/credit cell's amount is non-positive for a debit and non-negative for a credit. |
| `TableRows.PostedSign` | python-worker/main.py:874-885 | A debit/credit cell's signed amount agrees with its type and its column. |
| `TableRows.LastTextNonEmpty` | python-worker/main.py:867-873 | A date or description taken from a cell is never empty. |
| `TableRows.RowResult` | python-worker/main.py:898-910 | No transaction exactly when there is no amount and no description. Otherwise the amount is `abs` of the resolved amount (0 when absent), with the resolved type. Date, description (at most 200 characters) and balance come from the last cells of their kind. Confidence is 0.85, there is no box, and the raw text is passed through. |
| `Balances.LabelEnd` | python-worker/main.py:921-926 | A matched label ("opening balance" and the like, "balance forward" or "balance brought forward") ends within the text. |
| `Balances.NumberGroup` | python-worker/main.py:921 | The captured group `[\d,]+\.?\d*` after the separators is non-empty and within the text. |
| `Balances.GroupChars` | python-worker/main.py:921 | The captured group holds only digits, commas and dots. |
| `Balances.GroupsOfPattern` | python-worker/main.py:920-927 | Every pattern captures number characters within the text. |
| `Balances.SearchIsLeftmost` | python-worker/main.py:930 | `re.search` finds nothing exactly when no position matches; otherwise it returns the group of the leftmost match. |
| `Balances.SearchByNumber` | python-worker/main.py:930-933 | A found group consists of number characters only. |
| `Balances.FirstValueIsFirst` | python-worker/main.py:929-936 | The balance is the value of the first pattern in list order that both matches and converts; it is `None` exactly when none does. |
| `Balances.ValueNonNegative` | python-worker/main.py:933 | A converted balance is never negative: the group has no sign. |
| `Balances.FirstMatching` | python-worker/main.py:929-936 | The pattern loop with `break` returns the first pattern value that converts. |
| `Balances.ExtractBalancesFromText` | python-worker/main.py:913-947 | The method returns the opening and closing balances of the case-insensitive text. |
| `Balances.BalancesFound` | python-worker/main.py:913-947 | Opening is `None` exactly when neither opening pattern converts, and closing exactly when the closing pattern does not. Both are non-negative. The labelled opening pattern wins over "balance forward". |
| `Decimals.ParseDecimal` | python-worker/main.py:316 | `float()` accepts digits, a point and digits, and returns the unsigned decimal they spell. |
| `Decimals.DecimalValue` | python-worker/main.py:316 | The value of digits, a point and digits is the integer part plus the fraction digits over the matching power of ten. |
| `Decimals.ParseFloatUnsigned` | python-worker/main.py:933 | `float()` of a string without a minus sign is non-negative. |
| `Decimals.ParseFloatNeedsDigit` | python-worker/main.py:809 | `float()` accepts only strings holding a digit. |
| `Text.LowerStr` | python-worker/main.py:232 | `lower()` keeps the length and lower-cases each ASCII capital. |
| `Text.StripShape` | python-worker/main.py:865 | `strip()` returns a part of the string that neither starts nor ends with whitespace. |
| `Text.ReplaceChar` | python-worker/main.py:893 | `replace('(', '-')` keeps the length and changes exactly the matching characters. |
| `Text.RemoveAllKeeps` | python-worker/main.py:809 | Removing a substring never introduces a character. |
| `Text.RemoveAbsent` | python-worker/main.py:311 | Removing a character that does not occur leaves the string unchanged. |
| `Text.RemoveBetween` | python-worker/main.py:311 | Removing a character from two runs without it, joined by it, joins the runs. |
| `Text.JoinAvoids` | python-worker/main.py:283 | `' '.join` adds only spaces, so characters no part holds stay absent. |
| `Text.RemoveAllDrops` | python-worker/main.py:316 | Removing a character removes every occurrence of it. |
| `Text.Take` | python-worker/main.py:903 | `[:200]` returns a prefix of at most 200 characters, and the whole string when it is short enough. |
| `Text.SplitWs` | python-worker/main.py:821 | `split()` returns non-empty parts without whitespace. |
| `Text.ContainsFromAt` | python-worker/main.py:235 | Python's `in` on strings holds exactly when the substring occurs at some position. |

## Left out

- HTTP endpoints, file upload, temporary files, CORS and server start-up are left out. They are I/O around the parsing core.
- pdfplumber, pdf2image, pytesseract, EasyOCR, GMFT, pandas and the `ocrmypdf` subprocess are left out as foreign code. Their outputs are the model's inputs: word lists, Tesseract word records, EasyOCR items, and rows of (header, value) pairs.
- `get_easyocr` is left out: it is lazy global initialisation of a library.
- `src/lib/processing/workers/ocr-worker.py` is not part of this model. It is a stdin/stdout wrapper around the same OCR libraries.
- The per-page loops of the endpoints are left out, and so are the joining of page texts and the native endpoint's `sorted(lines.items())` walk over lines. The model covers the helpers they call and the confidence and balance expressions computed from their results.
- Floating point: amounts, coordinates and confidences are exact reals. Binary rounding in `float()`, in `/` and in the confidence means is not modelled.
- `Decimals.ParseFloat` accepts only optional surrounding whitespace, an optional sign and a decimal with digits and at most one point. Exponents, `inf`/`nan`, underscores and non-ASCII digits are treated as conversion failures.
- Regular expressions and case-insensitivity are ASCII only: `\s`, `\d`, `\w`, `lower()` and `IGNORECASE` do not cover Unicode whitespace, digits or case folding.
- Tesseract's dictionary of parallel lists is a single list of word records. The lists are taken to have equal length.
- An EasyOCR bounding box keeps only corners 0 and 2, the only ones the worker reads.
- GMFT cells are given as their `str(value)` and `str(col)` texts. The `raw_text` `str(row.to_dict())` is a parameter.
- `NaiveParser.NaiveFields`: the naive parser is not evaluated on the line "01/15/2024 GROCERY STORE 45.00 1,234.56". The lemma states in general that the amount comes from the last amount match; only the column parser's result on that line is proved, in `WorkedLine`.
- `LineGrouping.GroupWordsByLine`: a tolerance of 0, for which `group_words_by_line` raises `ZeroDivisionError`, is excluded by a precondition. The worker only calls it with the default tolerance 5.
