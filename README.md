# Schedly email core in Dafny

Schedly is a FastAPI service. It reads an email and asks a language model
either for an empathetic reply or for the event details the email mentions.
This project models the deterministic logic around those model calls and
proves properties of it:

- **The response parser** of `extract_time_place_location_date`
  (`extractor/extractor.py`, with a copy in `main.py`).
  - The model's reply is split at `"\n"`.
  - Each line is filed under the first of `Date`, `Time`, `Place`, `Location`
    it mentions. A case-sensitive substring test decides this.
  - The stored value is the line with every `"<Keyword>:"` deleted and
    surrounding whitespace stripped.
  - The result is a dictionary with the keys `dates`, `times`, `places` and
    `locations`.
  - An empty reply gives four empty lists.
  - Module `Extractor` holds the parser.
    - `Parse` is the imperative loop over a `map<string, seq<string>>`.
    - It is proved equal to `ToDict(Scan(response))`.
    - `Scan` is the scan written as a function over the datatype `Extraction`.
  - Module `PyStr` models the Python string operations the loop uses:
    `in`, `split`, `replace(pat, "")`, and `strip()` with Python's `isspace`
    character set.
  - Module `ParserCases` works out concrete reply shapes.
- **The sentiment label and the chat history** of `process_email_content`
  (`process_email/email_processing.py`, with a copy in `main.py`),
  in module `EmailProcessing`.
  - A polarity score is labelled `"positive"`, `"negative"` or `"neutral"` by
    its sign.
  - The exchange `{'human': email, 'AI': reply}` is appended to the caller's
    history list. That list is the class `ChatHistory`.
- **The `/extract/` handler's error check** (`main.py`), in module `App`.
  - The handler rejects a parser result with an `"error"` key.
  - The parser never produces such a key, so `ExtractEmailInfo` always
    returns the parse.

The two copies of each function are the same up to blank lines and trailing whitespace. The same Dafny
members model both, and the table below cites one copy or the other.

Inputs:

- The language model's reply is a parameter of `Parse`, `Scan` and
  `ProcessEmailContent`.
- The TextBlob polarity score is a parameter of `SentimentLabel` and
  `ProcessEmailContent`. It is a `real`.

## Model

| member | source | states |
|---|---|---|
| Extractor.Parse | extractor/extractor.py:49-68 | The loop builds the dictionary of the scan of the reply. It has exactly the keys dates, times, places and locations. An empty reply gives four empty lists. |
| Extractor.ToDict | main.py:71-76 | The result dictionary has exactly the four list keys, and each key holds its field's list. |
| Extractor.FirstMatchWins | extractor/extractor.py:59-66 | A line is filed under a field exactly when it mentions that field's keyword and no keyword tested earlier. It is dropped exactly when it mentions none of the four. |
| Extractor.BucketFollowsLines | main.py:79-88 | Each list has one entry per line classified under its field, and no entry for any other line. The entries are the cleaned lines, in source order. |
| Extractor.FileLineGet | main.py:81-88 | One line adds its cleaned value to its own field's list only. It adds one entry in total, or none when it is dropped. |
| Extractor.TotalAtMostLines | extractor/extractor.py:57-66 | The lists together hold at most one entry per line. They hold exactly one per line exactly when no line is dropped. |
| Extractor.ScanTotalBound | extractor/extractor.py:56-66 | For a whole reply, the entries number at most the count of "\n" plus one. |
| Extractor.DatesCount | extractor/extractor.py:59-60 | The dates list has as many entries as there are lines containing "Date". |
| Extractor.StoredValuesTrimmed | main.py:82-88 | No stored value starts or ends with a whitespace character. |
| PyStr.ContainsIff | extractor/extractor.py:59 | The substring test holds exactly when the keyword occurs at some index of the line. |
| PyStr.RemoveAllLength | extractor/extractor.py:60 | Deleting a marker shortens the line by the marker's length times its number of non-overlapping occurrences. |
| PyStr.CountPositiveIff | main.py:82 | The number of non-overlapping occurrences is positive exactly when the marker occurs. |
| PyStr.RemoveAllUnchangedIff | extractor/extractor.py:60-66 | Deleting a marker leaves the line unchanged exactly when the marker does not occur. Otherwise the line gets strictly shorter. |
| PyStr.RemoveAllAbsent | main.py:82-88 | Deleting a marker that does not occur changes nothing. |
| PyStr.RemoveAllFirst | extractor/extractor.py:60 | Deleting a marker keeps everything before its leftmost occurrence, removes that occurrence and carries on right after it, wherever in the line it stands. |
| PyStr.JoinSplit | extractor/extractor.py:57 | Joining the split parts with "\n" gives back the reply. |
| PyStr.SplitJoin | main.py:79 | Splitting parts that hold no "\n" and are joined with "\n" gives back those parts. |
| PyStr.SplitCount | main.py:79 | A split yields one more part than there are separators. |
| PyStr.StripShape | main.py:82 | A stripped value is a contiguous slice of the text with only whitespace cut on each side. It has no whitespace at either end, and it is empty exactly when the text is all whitespace. |
| PyStr.StripPadding | extractor/extractor.py:60-66 | Stripping whitespace padding off a trimmed value gives that value back. |
| PyStr.StripIdempotent | main.py:82-88 | Stripping twice is stripping once. |
| ParserCases.ClassifyLabelled | extractor/extractor.py:59-66 | A line "<Keyword>: <value>" is filed under its own field whenever the value mentions no keyword tested before it, even when the value spans lines or repeats the marker. |
| ParserCases.RepeatedMarkerFiled | extractor/extractor.py:59-62 | "Time: Time: 10:00", whose value repeats its own label, is filed under times. |
| ParserCases.CleanLabelled | extractor/extractor.py:60-66 | Such a line is stored as its value, stripped, whenever the value does not repeat the marker. |
| ParserCases.WellFormedReply | main.py:78-88 | A reply of one labelled line per field, in priority order, plus a note line, yields each value stripped under its own field and drops the note. This holds whenever each value is one line, mentions no keyword tested before its own and does not repeat its own marker, and the note mentions no keyword. |
| ParserCases.CapitalisedValues | extractor/extractor.py:61-66 | "Time: Tuesday", "Place: Town Hall" and "Location: Lobby" are filed under their own fields and stored as their values, although the values start with a capital letter. |
| ParserCases.SampleReply | extractor/extractor.py:56-66 | The five-line reply Date/Time/Place/Location/Note gives ["2024-05-01"], ["10:00"], ["Office"], ["Room 4"]. |
| ParserCases.BareKeywordKept | extractor/extractor.py:59-60 | A line that mentions "Date" but never "Date:" is stored whole, only stripped. |
| ParserCases.BareKeywordSample | main.py:81-82 | " Date TBD " is stored under dates as "Date TBD". |
| ParserCases.SinglePassSample | extractor/extractor.py:60 | Marker deletion is a single pass: "DaDate:te:" is stored as "Date:", which still contains the marker. |
| ParserCases.LowerCaseDropped | main.py:81-88 | The keyword test is case-sensitive: the line "Updated" is dropped. |
| EmailProcessing.SentimentLabel | process_email/email_processing.py:26 | The label is one of positive, negative and neutral. It is positive exactly when the polarity is above zero, negative exactly when it is below, and neutral exactly when it is zero. |
| EmailProcessing.ProcessEmailContent | main.py:164-170 | The history grows by exactly one entry. Earlier entries are unchanged, and the new last entry is the email and the reply. The reply is returned with the label of the polarity. |
| App.ExtractEmailInfo | main.py:187-192 | The "error" check never fires: the handler always returns the parser's dictionary for the reply. |

## Left out

- The language model is not modelled.
  - This covers the Groq chat model, the prompt templates, `LLMChain` and the `ConversationBufferWindowMemory` with its five-exchange window.
  - Its reply is a parameter. Nothing is assumed about its content.
  - The memory window is internal to that library, which is not part of this model.
- TextBlob's sentiment analysis is not modelled. Its polarity is a parameter.
- EmailProcessing.SentimentLabel: the polarity is a `real`, so a NaN score is not modelled. Python would label NaN "neutral", since both comparisons are false.
- Calendar creation and saving are not modelled: `create_ics_file`, `save_ics_file` and the `icalendar` library. They are file output.
- The FastAPI routes are not modelled beyond the `/extract/` error check: request and response models, HTTP status codes, and the `except Exception` re-raise around the handler.
- App.ExtractEmailInfo: does not model the `{"extracted_info": …}` wrapper of the reply.
- App.ExtractEmailInfo: does not model exceptions from the model call, which become HTTP 500 responses.
- App.ExtractEmailInfo: the rejection carries the raw value under "error", not the formatted text "Error: …" of the HTTP error, since Python's formatting of a list is not modelled.
- EmailProcessing.ProcessEmailContent: always appends. In the source, an exception from the model call propagates before the append, so the caller's history stays unchanged; the model call and its failures are not modelled.
- API keys and environment configuration are not modelled.
- Strings are sequences of Unicode scalar values (`char`); no encoding is modelled. A Python `str` may also hold lone surrogate code points, which the model cannot represent.
