# KHAN-MD tool commands, modelled in Dafny

This project models the decision and formatting logic of two plugin files of
the KHAN-MD WhatsApp bot:

- `plugins/tool-converter.js`: the media-conversion commands.
  - `converter` turns a quoted sticker into an image.
  - `tomp3` turns a quoted video or audio message into audio.
  - `toptt` turns a quoted video or audio message into a voice note.
- `plugins/tool-number.js`: the temporary-number commands.
  - `tempnum <code>` lists numbers for a country.
  - `templist` lists the countries on offer.
  - `otpbox <number>` shows the inbox of one number.

Each handler is a pure function. It takes its arguments and the outcomes of
its external calls, and returns a trace: the messages it sends and the calls
it makes, in order. The calls are the download, the codec converter and the
HTTP request. Each outcome is a parameter: the value the call produced, or
the message of the error it threw. Two parts of the source build a string
step by step, and they stay imperative:

- the sticker error message built with `+=` (`ToolConverter.ComposeStickerError`);
- the inbox text built in a `for` loop (`ToolNumber.BuildInboxText`).

Each method is proved equal to the function the rest of the model uses.

JSON values are records with `Option` fields, where `None` is an absent
field. An absent field prints as `undefined` inside a template literal. A string field is truthy when it is
present and non-empty. A `result` field is absent or falsy, present but not
an array, or an array (`ToolNumber.ListField`).

Files:

- `common.dfy`: `Option`, `Result` and `Math.min`.
- `strings.dfy`: the JavaScript string operations the handlers use.
  - `includes`;
  - ASCII `toLowerCase` and `toUpperCase`;
  - decimal rendering, with a parse-back round trip;
  - `join("\n")` and splitting a reply into its lines, which is how the
    line structure of a reply is stated.
- `converter.dfy`: module `ToolConverter`.
- `number.dfy`: modules `ToolNumber` (the handlers) and
  `ToolNumberProperties` (what is proved about them).

The `tempnum` validity check at `plugins/tool-number.js:24-31` looks only
at the FIRST entry: it needs a truthy `result[0].number`. So a response
whose first entry lacks a number is rejected even when a later entry has
both fields. `ToolNumberProperties.OnlyFirstEntryChecked` exhibits such a
response.

## Model

| member | source | states |
|---|---|---|
| Common.Min | plugins/tool-number.js:107 | `Math.min(a, b)` is at most both arguments and equal to one of them |
| Strings.FirstCharAbsent | plugins/tool-converter.js:54-58 | a string lacking the first character of `sub` does not include `sub` |
| Strings.OnlyCandidateFails | plugins/tool-converter.js:54-58 | if the first character of `sub` occurs only at index k, and `sub` does not start there, `sub` is not included |
| Strings.UpperOfLower | plugins/tool-number.js:14-35 | upper-casing the lower-cased code is the same as upper-casing the argument; lower-casing keeps emptiness; case mapping adds and removes no line break |
| Strings.DigitChar | plugins/tool-number.js:40 | one digit renders as a character between '0' and '9' |
| Strings.Decimal | plugins/tool-number.js:40 | `${n}` is a non-empty string of digits without a line break; from 10 up it has no leading zero |
| Strings.DecimalRoundTrip | plugins/tool-number.js:40 | reading the rendered digits back gives the number |
| Strings.Split | plugins/tool-number.js:41 | splitting at "\n" yields at least one piece |
| Strings.SplitNoBreak | plugins/tool-number.js:41 | a break-free string splits into itself alone |
| Strings.SplitAfterLine | plugins/tool-number.js:41 | a break-free line followed by "\n" splits off as the first piece |
| Strings.SplitTerminated | plugins/tool-number.js:105-114 | newline-terminated break-free lines followed by `rest` split back into those lines, then the pieces of `rest` |
| Strings.TerminatedFour | plugins/tool-number.js:105 | four lines, each ended by "\n", concatenated |
| Strings.TerminatedAppend | plugins/tool-number.js:107-112 | terminating the lines of two lists appends the two texts |
| Strings.JoinThenBreak | plugins/tool-number.js:41-48 | joined lines followed by "\n" are the same text as the lines each ended by "\n" |
| Strings.SplitJoin | plugins/tool-number.js:41 | `split` undoes `join("\n")` on break-free lines; joining no lines gives one empty piece |
| Strings.TerminatedAroundJoin | plugins/tool-number.js:44-52 | terminated lines, then joined lines ended by a break, then terminated lines are one block of terminated lines |
| Strings.SplitAroundJoin | plugins/tool-number.js:44-52 | terminated lines, then joined lines and a break, then terminated lines and a last piece split back into all those lines in order |
| Strings.SplitLineBlankJoin | plugins/tool-number.js:77 | a line, "\n\n" and joined lines split into the line, one empty line and the joined lines |
| Strings.Contains | plugins/tool-converter.js:54-58 | `includes`: `sub` occurs at some index; FirstCharAbsent, OnlyCandidateFails and LargeInSizeError decide it for the size-limit message |
| Strings.Lower | plugins/tool-number.js:14 | ASCII `toLowerCase`, letter by letter; UpperOfLower states what the usage guard and the country fallback need of it |
| Strings.Upper | plugins/tool-number.js:30-35 | ASCII `toUpperCase`, letter by letter; UpperOfLower relates it to Lower |
| Strings.Join | plugins/tool-number.js:41 | `join("\n")`; SplitJoin proves Split inverts it on break-free lines |
| ToolConverter.ComposeStickerError | plugins/tool-converter.js:53-60 | the `+=` construction of `errorMessage` yields the base text plus the hint of the first matching substring, or no hint |
| ToolConverter.StickerGate | plugins/tool-converter.js:14-26 | never "too long"; the request proceeds iff a quoted message of type `stickerMessage` is present |
| ToolConverter.StickerRun | plugins/tool-converter.js:12-66 | the first step is always a sent message, and more follows iff the guards pass; StickerGuardsStop, StickerProceedReplies and StickerProceedCalls state the replies and the calls of every case |
| ToolConverter.StickerAfterDownload | plugins/tool-converter.js:34-66 | the `try`/`catch` after the download; StickerProceedReplies and OversizeStickerReply state which reply it sends |
| ToolConverter.ClassifyStickerError | plugins/tool-converter.js:53-60 | the first matching substring picks the hint; HintPriority states each hint's exact condition |
| ToolConverter.StickerFailureText | plugins/tool-converter.js:53-60 | the failure text; ComposeStickerError computes it with `+=`, and HintPriority states its base-text prefix |
| ToolConverter.SourceExt | plugins/tool-converter.js:102 | the extension is `mp4` exactly for a `videoMessage`, otherwise `m4a` (the same at line 152) |
| ToolConverter.MediaGate | plugins/tool-converter.js:77-93 | a "too long" verdict needs a present duration over the command's limit; MediaGateOrder states each verdict's exact condition (the same at lines 127-143) |
| ToolConverter.MediaRun | plugins/tool-converter.js:75-116 | the first step is always a sent message, and more follows iff the guards pass; MediaGuardsStop, MediaProceedReplies and MediaProceedCalls state the replies and the calls of every case (the same at lines 125-167) |
| ToolConverter.MediaAfterDownload | plugins/tool-converter.js:100-116 | the `try`/`catch` after the download; MediaProceedReplies states which reply it sends (the same at lines 150-167) |
| ToolConverter.StickerGuardsStop | plugins/tool-converter.js:14-26 | with no quoted message only the guidance is sent; a non-sticker gets only the wrong-type reply; neither downloads or converts |
| ToolConverter.StickerProceedReplies | plugins/tool-converter.js:28-66 | past the guards, processing is sent first, then exactly one reply: the converted image with its caption and `image/png` iff the download succeeded, it is within 10 MiB and conversion succeeded; otherwise the failure reply for the download's error, for the size-limit error of line 39 when the sticker is over 10 MiB, or for the converter's error |
| ToolConverter.StickerProceedCalls | plugins/tool-converter.js:34-42 | past the guards, the calls are exactly the download, then the conversion of the downloaded sticker iff the download succeeded and it is at most 10 MiB |
| ToolConverter.StickerConvertsWithinLimit | plugins/tool-converter.js:35-42 | the converter only ever receives the downloaded buffer of a quoted sticker of at most 10*1024*1024 bytes |
| ToolConverter.StickerLimitInclusive | plugins/tool-converter.js:38-42 | a sticker of exactly 10485760 bytes reaches the converter |
| ToolConverter.HintPriority | plugins/tool-converter.js:53-60 | each hint is chosen iff its substring matches and no earlier one does (FFmpeg, then "file too small", then "too large"), and no hint iff none matches; the reply always starts with the base text |
| ToolConverter.TooLargeErrorClassified | plugins/tool-converter.js:39-59 | the size-limit error is classified as too large, and its reply is the base text with the too-large hint |
| ToolConverter.NoFfmpegInSizeError | plugins/tool-converter.js:54 | the size-limit error does not mention FFmpeg |
| ToolConverter.NoSmallInSizeError | plugins/tool-converter.js:56 | the size-limit error does not include "file too small" |
| ToolConverter.NoSmallIn | plugins/tool-converter.js:56 | the size-limit error's only `f` is not the start of "file too small" |
| ToolConverter.NoFBeforeFile | plugins/tool-converter.js:39 | the size-limit error has no `f` before index 8 |
| ToolConverter.NoFAfterFile | plugins/tool-converter.js:39 | the size-limit error has no `f` after index 8 |
| ToolConverter.LargeInSizeError | plugins/tool-converter.js:58 | the size-limit error includes "too large" |
| ToolConverter.OversizeStickerReply | plugins/tool-converter.js:38-65 | an oversize sticker is downloaded but not converted, and the replies are processing then the too-large failure |
| ToolConverter.MediaGateOrder | plugins/tool-converter.js:77-93 | each verdict holds iff its guard fires and no earlier one does; a duration at the limit or an absent duration passes (the same at lines 127-143) |
| ToolConverter.MediaLimits | plugins/tool-converter.js:89-139 | `tomp3` rejects exactly durations over 300 seconds, `toptt` exactly durations over 60 |
| ToolConverter.MediaGuardsStop | plugins/tool-converter.js:77-93 | a guard that fires sends exactly its own reply and makes no call (the same at lines 127-143) |
| ToolConverter.MediaProceedReplies | plugins/tool-converter.js:95-116 | past the guards, processing is sent first, then exactly one reply: the converted audio with the command's mimetype and voice flag iff download and conversion succeed, else the failure text (the same at lines 145-167) |
| ToolConverter.MediaProceedCalls | plugins/tool-converter.js:100-103 | past the guards, the calls are exactly the download, then the conversion with the command's tool and the source extension iff the download succeeded (the same at lines 150-153) |
| ToolConverter.MediaConvertsOnlyPastGuards | plugins/tool-converter.js:100-103 | a conversion happens only past the guards, on the downloaded buffer, with the command's tool, and with `mp4` for video and `m4a` for audio (the same at lines 150-153) |
| ToolNumber.FindCountryIsFirst | plugins/tool-number.js:34 | `find` returns nothing iff no entry has a truthy country, and otherwise the country of the first such entry |
| ToolNumber.FindCountry | plugins/tool-number.js:34 | `find` projected on `country`; FindCountryIsFirst states it is the first truthy country, or nothing iff there is none |
| ToolNumber.CountryShown | plugins/tool-number.js:34-35 | the resolved country; CountryResolution states both of its cases |
| ToolNumber.ValidNumbers | plugins/tool-number.js:24-29 | the response check; TempNumRejectsInvalid and OnlyFirstEntryChecked state what it accepts |
| ToolNumber.NumberLines | plugins/tool-number.js:38-41 | the number list; NumberListShape states its length min(15, N) and each line |
| ToolNumber.NumbersReplyText | plugins/tool-number.js:44-52 | the numbers reply; TempNumReplyLines states its lines |
| ToolNumber.TempNumAnswer | plugins/tool-number.js:18-57 | the reply once the request completed; TempNumRejectsInvalid, TempNumReplyLines and TempNumFailureKinds state it for each outcome |
| ToolNumber.TempNum | plugins/tool-number.js:12-57 | at most two steps, the last a reply; a fetch happens iff there is a code argument; TempNumTrace states the steps exactly |
| ToolNumber.CountryLines | plugins/tool-number.js:75 | the country lines; CountryListShape states one per entry, numbered from 1 |
| ToolNumber.TempListAnswer | plugins/tool-number.js:71-81 | the templist reply; TempListOutcomes and TempListLines state it for each outcome |
| ToolNumber.TempList | plugins/tool-number.js:69-82 | the country list is fetched, then exactly one reply |
| ToolNumber.InboxText | plugins/tool-number.js:105-114 | the inbox text; BuildInboxText computes it with the loop, and InboxLines and EntryBlocks state its lines |
| ToolNumber.OtpBoxAnswer | plugins/tool-number.js:97-120 | the otpbox reply once the request completed; OtpBoxOutcomes states it for each outcome |
| ToolNumber.OtpBox | plugins/tool-number.js:93-121 | at most two steps, the last a reply; a fetch happens iff there is a number argument; OtpBoxOutcomes states the steps exactly |
| ToolNumber.InboxHeaderTerminated | plugins/tool-number.js:105 | the header literal is the four header lines, each ended by "\n" |
| ToolNumber.RegroupHeader | plugins/tool-number.js:105 | the header template, with its literals as variables, is its four lines each ended by "\n" |
| ToolNumber.EntryTerminated | plugins/tool-number.js:109-111 | one iteration's three `+=` append that entry's four lines, each ended by "\n" |
| ToolNumber.InboxStep | plugins/tool-number.js:108-111 | one iteration's three `+=` extend the text by the four lines of entry i |
| ToolNumber.BuildInboxText | plugins/tool-number.js:105-114 | the loop builds the header, the first min(10, N) entries in order, and the footer |
| ToolNumberProperties.EveryCommandRepliesOnce | plugins/tool-number.js:12-121 | every command sends exactly one reply, last, after at most one request, whatever the request returns or throws |
| ToolNumberProperties.TempNumTrace | plugins/tool-number.js:14-21 | with no code the usage example is the only step (nothing fetched); otherwise the lower-cased code is fetched, then one reply |
| ToolNumberProperties.TempNumRejectsInvalid | plugins/tool-number.js:24-31 | the invalid-response text is sent iff the result is not a non-empty array whose first entry has a truthy number |
| ToolNumberProperties.OnlyFirstEntryChecked | plugins/tool-number.js:24-41 | a first entry without a number is rejected even when a later entry has both fields; a later entry without a number is listed as `N/A` |
| ToolNumberProperties.CountryResolution | plugins/tool-number.js:34-35 | the country shown is that of the first entry with a truthy country, or else the upper-cased argument |
| ToolNumberProperties.NumberListShape | plugins/tool-number.js:38-41 | the list has exactly min(15, N) lines; line i is `(i+1). number`, or `N/A` without a number; its numeral reads back as i + 1 |
| ToolNumberProperties.RegroupReply | plugins/tool-number.js:44-52 | the reply template, with its literals as variables, is four terminated lines, the joined list, a break, two terminated lines and the last line |
| ToolNumberProperties.NumbersReplyRegrouped | plugins/tool-number.js:44-52 | the reply is the four header lines, the joined numbers and the footer |
| ToolNumberProperties.NumberLinesBreakFree | plugins/tool-number.js:38-41 | number lines contain no line break when the numbers do not |
| ToolNumberProperties.NumbersFrameBreakFree | plugins/tool-number.js:44-52 | the fixed lines around the number list hold no line break when the country does not |
| ToolNumberProperties.TempNumReplyLines | plugins/tool-number.js:38-52 | the reply splits into the four header lines, the number list, then the three footer lines |
| ToolNumberProperties.TempNumFailureKinds | plugins/tool-number.js:54-56 | a failed request says "API Timeout" iff the error message includes "timeout", and "Invalid Response" otherwise |
| ToolNumberProperties.TempListOutcomes | plugins/tool-number.js:71-81 | a missing result gives "Couldn't fetch country list."; a failed request, or a result that is not an array, gives the failure text |
| ToolNumberProperties.CountryListShape | plugins/tool-number.js:75 | one line per entry, in order; line i is numbered i + 1 and holds that entry's title and id |
| ToolNumberProperties.CountryLinesBreakFree | plugins/tool-number.js:75 | country lines contain no line break when titles and ids do not |
| ToolNumberProperties.CountriesTotal | plugins/tool-number.js:77 | the total line starts with its label and its numeral reads back as the count |
| ToolNumberProperties.TempListLines | plugins/tool-number.js:73-77 | the listing splits into the total line (whose number is `result.length`), an empty line and the country lines |
| ToolNumberProperties.OtpBoxOutcomes | plugins/tool-number.js:94-119 | no number gives only the prompt (nothing fetched); otherwise the number is fetched; no list or an empty list gives "No messages found"; a failure gives the failure text; otherwise the inbox text is sent |
| ToolNumberProperties.EntryBlocks | plugins/tool-number.js:107-112 | the first n entries take 4n lines, block k is entry k's lines, in order, numbered k + 1, with from, time and content |
| ToolNumberProperties.EntryLinesBreakFree | plugins/tool-number.js:107-112 | entry lines contain no line break when the fields do not |
| ToolNumberProperties.InboxHeaderBreakFree | plugins/tool-number.js:105 | the inbox header lines hold no line break when the number does not |
| ToolNumberProperties.InboxLines | plugins/tool-number.js:105-114 | the inbox splits into the header lines (with N), then min(10, N) four-line entry blocks, then the footer |

## Left out

- HTTP requests (`axios`) are not modelled, including the 10-second timeout, URL building and `encodeURIComponent`. Each request is a parameter that yields the `result` field or the thrown error message.
- `client.sendMessage`, `reply` and `quoted.download()` are not modelled. A send is a trace event. A send that throws, which would re-enter a `catch` block, is not modelled.
- `data/converter` and `data/sticker-converter` are not part of this model. `toAudio`, `toPTT` and `convertStickerToImage` are opaque functions that return a buffer or an error.
- `cmd` registration, aliases, reactions and `console.error` logging are not modelled.
- Async scheduling and concurrent dispatch by the host are not modelled.
- The `quoted` reference is an input. `converter` reads `message.quoted` while `tomp3`/`toptt` read `match.quoted`, and the framework that fills these in is not shown.
- JavaScript truthiness is modelled only for the value shapes above. A non-string `number`, `country`, `title`, `id`, `from`, `time_wib` or `content` field is not modelled.
- A field holding JSON `null` is not modelled. In a template literal it prints `null`, not `undefined`. For example, a templist entry `{"title": null, "id": "us"}` gives `*1.* null \`(us)\`` at `plugins/tool-number.js:75`, and the same holds for the inbox fields at lines 109-111.
- A `null` element of a result array is not modelled. What the source does with one depends on where it sits:
  - at tempnum index 0, `?.` reads it as no number, so the reply is the invalid-response text (line 28);
  - `find` skips it (line 34);
  - among the first 15 tempnum entries (line 40), anywhere in the templist array (line 75), or among the first 10 inbox messages (lines 108-111), reading a field of it throws into the `catch` block;
  - past the 15th tempnum entry or the 10th inbox message it is never read.
- A fractional or non-numeric `seconds` is not modelled: `seconds` is an optional integer. For example, 300.5 is rejected by the comparison at `plugins/tool-converter.js:89`, but it cannot be expressed in the model.
- The `otpbox` result is modelled as absent or an array. A truthy non-array `result` is not modelled, because its `.length` and indexing depend on its arbitrary JSON shape.
- A thrown value without a `message` is not modelled. It would make `includes` throw inside the `catch` block.
- Case mapping covers ASCII letters only. Full Unicode `toLowerCase`/`toUpperCase` is not modelled.
- ToolNumberProperties.TempNumReplyLines: states the line structure only when no field holds a line break, since a break inside a field splits that line.
- ToolNumberProperties.TempListLines: states the line structure only when no title or id holds a line break, for the same reason.
- ToolNumberProperties.InboxLines: states the line structure only when neither the number nor any message field holds a line break, for the same reason.
