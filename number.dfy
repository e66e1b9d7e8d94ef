/**
 * The temporary-number commands of plugins/tool-number.js: `tempnum`
 * (numbers available for a country), `templist` (the countries on offer)
 * and `otpbox` (the inbox of one number).
 *
 * A handler is a function from its arguments and the outcome of its one
 * HTTP request to the trace of what it does: the request it makes, then the
 * one reply it sends. The HTTP client is not modelled: `api` maps the
 * request's parameter to the `result` field of the JSON body, or to the
 * message of the error the request threw.
 */
module ToolNumber {
  import opened Common
  import opened Strings

  /**
   * A JSON `result` field: absent or falsy, present but not an array, or an
   * array.
   */
  datatype ListField<T> = Missing | NotList | List(items: seq<T>)

  /** An element of the number list; its fields may be absent. */
  datatype NumberEntry = NumberEntry(number: Option<string>, country: Option<string>)

  /** An element of the country list. */
  datatype CountryEntry = CountryEntry(title: Option<string>, id: Option<string>)

  /** A received SMS of the inbox (`from`, `time_wib`, `content`). */
  datatype InboxMessage = InboxMessage(from: Option<string>, timeWib: Option<string>, content: Option<string>)

  /** The HTTP requests, by the parameter their URL carries. */
  datatype Request = ListNumbers(code: string) | CountryList | InboxOf(number: string)

  datatype Step = Fetch(request: Request) | Reply(text: string)

  /** A string field is truthy when present and non-empty. */
  predicate Truthy(field: Option<string>)
  {
    field.Some? && field.value != ""
  }

  /**
   * A field interpolated into a template literal: an absent one prints
   * `undefined`. A field holding JSON `null`, which prints `null`, is not
   * modelled.
   */
  function Show(field: Option<string>): string
  {
    match field
    case Some(s) => s
    case None => "undefined"
  }

  /** `args[0]`, with an absent argument read as the (equally falsy) empty string. */
  function FirstArg(args: seq<string>): string
  {
    if |args| == 0 then "" else args[0]
  }

  // ---------------------------------------------------------------------------
  // tempnum
  // ---------------------------------------------------------------------------

  const TEMPNUM_USAGE := "❗ Example: `.tempnum us`"
  const MAX_LISTED_NUMBERS := 15

  function InvalidNumbersText(code: string): string
  {
    "❌ Invalid response for *" + Upper(code) + "*!\nMaybe wrong country code?"
  }

  function TempNumFailureText(message: string): string
  {
    "❌ Failed: " + if Contains(message, "timeout") then "API Timeout" else "Invalid Response"
  }

  /** The response check: a non-empty array whose FIRST element has a number. */
  predicate ValidNumbers(result: ListField<NumberEntry>)
  {
    result.List? && |result.items| > 0 && Truthy(result.items[0].number)
  }

  /** Entry `i` is the first entry with a truthy country. */
  ghost predicate FirstWithCountry(items: seq<NumberEntry>, i: nat)
  {
    i < |items| && Truthy(items[i].country)
    && forall j :: 0 <= j < i ==> !Truthy(items[j].country)
  }

  /** `result.find(item => item?.country)`, projected on its country. */
  function FindCountry(items: seq<NumberEntry>): Option<string>
  {
    if items == [] then None
    else if Truthy(items[0].country) then items[0].country
    else FindCountry(items[1..])
  }

  /**
   * The search finds nothing exactly when no entry has a truthy country,
   * and otherwise it finds the country of the first entry that has one.
   */
  lemma {:induction false} FindCountryIsFirst(items: seq<NumberEntry>)
    ensures FindCountry(items).None? <==> forall i :: 0 <= i < |items| ==> !Truthy(items[i].country)
    ensures FindCountry(items).Some? ==>
              exists i: nat :: FirstWithCountry(items, i) && items[i].country == FindCountry(items)
  {
    if items == [] {
    } else if Truthy(items[0].country) {
      assert FirstWithCountry(items, 0);
    } else {
      FindCountryIsFirst(items[1..]);
      assert forall i :: 1 <= i < |items| ==> items[1..][i - 1] == items[i];
      if FindCountry(items[1..]).Some? {
        var i: nat :| FirstWithCountry(items[1..], i) && items[1..][i].country == FindCountry(items[1..]);
        assert items[1..][i] == items[i + 1];
        assert FirstWithCountry(items, i + 1);
      }
    }
  }

  /** The country shown: the first truthy `country`, else the upper-cased code. */
  function CountryShown(code: string, items: seq<NumberEntry>): string
  {
    match FindCountry(items)
    case Some(country) => country
    case None => Upper(code)
  }

  /** `num.number || 'N/A'`. */
  function NumberOrNa(entry: NumberEntry): string
  {
    if Truthy(entry.number) then entry.number.value else "N/A"
  }

  function NumberLine(i: nat, entry: NumberEntry): string
  {
    Decimal(i + 1) + ". " + NumberOrNa(entry)
  }

  /** `result.slice(0, 15).map((num, i) => ...)`. */
  function NumberLines(items: seq<NumberEntry>): seq<string>
  {
    var n := Min(MAX_LISTED_NUMBERS, |items|);
    seq(n, i requires 0 <= i < n => NumberLine(i, items[i]))
  }

  const NUMBERS_HEADER := "╭──「 TEMP NUMBERS 」"
  const NUMBERS_FOOTER := ["│", "│ Use: .otpbox <number>", "╰──「 @KHAN-MD 」"]

  function NumbersReplyText(country: string, lines: seq<string>): string
  {
    NUMBERS_HEADER + "\n" + "│\n" + "│ • Country: " + country + "\n" + "│ • Available:\n" + Join(lines) + "\n" +
    "│\n" + "│ Use: .otpbox <number>\n" + "╰──「 @KHAN-MD 」"
  }

  /** The reply of `tempnum <code>` once the request has completed. */
  function TempNumAnswer(code: string, response: Result<ListField<NumberEntry>>): string
  {
    match response
    case Failure(message) => TempNumFailureText(message)
    case Success(result) =>
      if !ValidNumbers(result) then InvalidNumbersText(code)
      else NumbersReplyText(CountryShown(code, result.items), NumberLines(result.items))
  }

  function TempNum(args: seq<string>, api: string -> Result<ListField<NumberEntry>>): (t: seq<Step>)
    ensures 1 <= |t| <= 2 && t[|t| - 1].Reply?
    ensures |t| == 2 <==> FirstArg(args) != ""
  {
    var code := Lower(FirstArg(args));
    if code == "" then [Reply(TEMPNUM_USAGE)]
    else [Fetch(ListNumbers(code)), Reply(TempNumAnswer(code, api(code)))]
  }

  // ---------------------------------------------------------------------------
  // templist
  // ---------------------------------------------------------------------------

  const COUNTRY_LIST_MISSING := "❌ Couldn't fetch country list."
  const TEMPLIST_FAILED := "❌ Failed to fetch temporary number country list."

  function CountryLine(i: nat, entry: CountryEntry): string
  {
    "*" + Decimal(i + 1) + ".* " + Show(entry.title) + " `(" + Show(entry.id) + ")`"
  }

  /** `result.map((c, i) => ...)`. */
  function CountryLines(items: seq<CountryEntry>): seq<string>
  {
    seq(|items|, i requires 0 <= i < |items| => CountryLine(i, items[i]))
  }

  function CountriesHeader(total: nat): string
  {
    "🌍 *Total Available Countries:* " + Decimal(total)
  }

  /**
   * The reply of `templist`. A truthy `result` that is not an array makes
   * `result.map` throw, which the catch block reports like a failed request.
   */
  function TempListAnswer(response: Result<ListField<CountryEntry>>): string
  {
    match response
    case Failure(_) => TEMPLIST_FAILED
    case Success(Missing) => COUNTRY_LIST_MISSING
    case Success(NotList) => TEMPLIST_FAILED
    case Success(List(items)) => CountriesHeader(|items|) + "\n\n" + Join(CountryLines(items))
  }

  function TempList(response: Result<ListField<CountryEntry>>): (t: seq<Step>)
    ensures |t| == 2 && t[0] == Fetch(CountryList) && t[1].Reply?
  {
    [Fetch(CountryList), Reply(TempListAnswer(response))]
  }

  // ---------------------------------------------------------------------------
  // otpbox
  // ---------------------------------------------------------------------------

  const OTP_NO_NUMBER := "❌ Please provide a number.\n\nExample: `.otpbox +16600887591`"
  const OTP_NO_MESSAGES := "❌ No messages found for this number."
  const OTP_FAILED := "❌ Failed to fetch messages. Make sure the number is correct."
  const MAX_LISTED_MESSAGES := 10
  const INBOX_FOOTER := "╰─ Powered by *KHAN MD*"

  function InboxHeaderLines(number: string, total: nat): seq<string>
  {
    ["╭─「 *OTP Inbox* 」", "│ *Number:* " + number, "│ *Total Messages:* " + Decimal(total), "│"]
  }

  /** The four lines of inbox entry `i` (numbered `i + 1`). */
  function EntryLines(i: nat, msg: InboxMessage): seq<string>
  {
    ["│ " + Decimal(i + 1) + ". *From:* " + Show(msg.from),
     "│     *Time:* " + Show(msg.timeWib),
     "│     *Message:* " + Show(msg.content),
     "│"]
  }

  /** The lines of the first `n` entries, in order. */
  function AllEntryLines(msgs: seq<InboxMessage>, n: nat): seq<string>
    requires n <= |msgs|
  {
    if n == 0 then [] else AllEntryLines(msgs, n - 1) + EntryLines(n - 1, msgs[n - 1])
  }

  /** The inbox reply: header lines, the first min(10, N) entries, then the footer. */
  function InboxText(number: string, msgs: seq<InboxMessage>): string
  {
    Terminated(InboxHeaderLines(number, |msgs|) + AllEntryLines(msgs, Min(MAX_LISTED_MESSAGES, |msgs|))) + INBOX_FOOTER
  }

  /** The header template literal is the header lines, each ended by "\n". */
  lemma InboxHeaderTerminated(number: string, total: nat)
    ensures "╭─「 *OTP Inbox* 」\n│ *Number:* " + number + "\n│ *Total Messages:* " + Decimal(total) + "\n│\n"
            == Terminated(InboxHeaderLines(number, total))
  {
    assert "╭─「 *OTP Inbox* 」\n│ *Number:* " == "╭─「 *OTP Inbox* 」" + "\n" + "│ *Number:* ";
    assert "\n│ *Total Messages:* " == "\n" + "│ *Total Messages:* ";
    assert "\n│\n" == "\n" + "│" + "\n";
    RegroupHeader("╭─「 *OTP Inbox* 」", "│ *Number:* ", number, "│ *Total Messages:* ", Decimal(total), "│");
  }

  /** The header's concatenation, with every literal as a variable, regrouped into four lines. */
  lemma RegroupHeader(first: string, np: string, number: string, tp: string, total: string, last: string)
    ensures first + "\n" + np + number + ("\n" + tp) + total + ("\n" + last + "\n")
            == Terminated([first, np + number, tp + total, last])
  {
    TerminatedFour(first, np + number, tp + total, last);
  }

  /** The three `text +=` of one iteration append the entry's lines, each ended by "\n". */
  lemma EntryTerminated(i: nat, msg: InboxMessage)
    ensures ("│ " + Decimal(i + 1) + ". *From:* " + Show(msg.from) + "\n")
            + ("│     *Time:* " + Show(msg.timeWib) + "\n")
            + ("│     *Message:* " + Show(msg.content) + "\n│\n")
            == Terminated(EntryLines(i, msg))
  {
    var e := EntryLines(i, msg);
    TerminatedFour(e[0], e[1], e[2], e[3]);
    assert e == [e[0], e[1], e[2], e[3]];
    assert "\n│\n" == "\n" + e[3] + "\n";
  }

  /** One iteration's three `+=` extend the text by the lines of entry `i`. */
  lemma InboxStep(text: string, header: seq<string>, messages: seq<InboxMessage>, i: nat)
    requires i < |messages| && text == Terminated(header + AllEntryLines(messages, i))
    ensures text + ("│ " + Decimal(i + 1) + ". *From:* " + Show(messages[i].from) + "\n")
                 + ("│     *Time:* " + Show(messages[i].timeWib) + "\n")
                 + ("│     *Message:* " + Show(messages[i].content) + "\n│\n")
            == Terminated(header + AllEntryLines(messages, i + 1))
  {
    var msg := messages[i];
    var a := "│ " + Decimal(i + 1) + ". *From:* " + Show(msg.from) + "\n";
    var b := "│     *Time:* " + Show(msg.timeWib) + "\n";
    var c := "│     *Message:* " + Show(msg.content) + "\n│\n";
    calc {
      text + a + b + c;
      text + (a + b + c);
      { EntryTerminated(i, msg); }
      text + Terminated(EntryLines(i, msg));
      { TerminatedAppend(header + AllEntryLines(messages, i), EntryLines(i, msg)); }
      Terminated((header + AllEntryLines(messages, i)) + EntryLines(i, msg));
      { assert (header + AllEntryLines(messages, i)) + EntryLines(i, msg) == header + AllEntryLines(messages, i + 1); }
      Terminated(header + AllEntryLines(messages, i + 1));
    }
  }

  /** The `for` loop that builds the inbox reply with `text +=`. */
  method BuildInboxText(number: string, messages: seq<InboxMessage>) returns (text: string)
    ensures text == InboxText(number, messages)
  {
    text := "╭─「 *OTP Inbox* 」\n│ *Number:* " + number + "\n│ *Total Messages:* " + Decimal(|messages|) + "\n│\n";
    ghost var header := InboxHeaderLines(number, |messages|);
    assert text == Terminated(header + AllEntryLines(messages, 0)) by {
      InboxHeaderTerminated(number, |messages|);
      assert header + AllEntryLines(messages, 0) == header;
    }
    var n := Min(MAX_LISTED_MESSAGES, |messages|);
    for i := 0 to n
      invariant text == Terminated(header + AllEntryLines(messages, i))
    {
      var msg := messages[i];
      InboxStep(text, header, messages, i);
      text := text + ("│ " + Decimal(i + 1) + ". *From:* " + Show(msg.from) + "\n");
      text := text + ("│     *Time:* " + Show(msg.timeWib) + "\n");
      text := text + ("│     *Message:* " + Show(msg.content) + "\n│\n");
    }
    text := text + INBOX_FOOTER;
  }

  function OtpBoxAnswer(number: string, response: Result<Option<seq<InboxMessage>>>): string
  {
    match response
    case Failure(_) => OTP_FAILED
    case Success(None) => OTP_NO_MESSAGES
    case Success(Some(msgs)) => if |msgs| == 0 then OTP_NO_MESSAGES else InboxText(number, msgs)
  }

  function OtpBox(args: seq<string>, api: string -> Result<Option<seq<InboxMessage>>>): (t: seq<Step>)
    ensures 1 <= |t| <= 2 && t[|t| - 1].Reply?
    ensures |t| == 2 <==> FirstArg(args) != ""
  {
    var number := FirstArg(args);
    if number == "" then [Reply(OTP_NO_NUMBER)]
    else [Fetch(InboxOf(number)), Reply(OtpBoxAnswer(number, api(number)))]
  }
}

module ToolNumberProperties {
  import opened Common
  import opened Strings
  import opened ToolNumber

  /** One reply, preceded by at most one request and nothing else. */
  predicate RepliesOnce(t: seq<Step>)
  {
    1 <= |t| <= 2 && t[|t| - 1].Reply? && forall i :: 0 <= i < |t| - 1 ==> t[i].Fetch?
  }

  /** Every command sends exactly one reply, whatever the request returns or throws. */
  lemma EveryCommandRepliesOnce(args: seq<string>, numbers: string -> Result<ListField<NumberEntry>>,
                                countries: Result<ListField<CountryEntry>>,
                                inbox: string -> Result<Option<seq<InboxMessage>>>)
    ensures RepliesOnce(TempNum(args, numbers))
    ensures RepliesOnce(TempList(countries))
    ensures RepliesOnce(OtpBox(args, inbox))
  {
  }

  // ---------------------------------------------------------------------------
  // tempnum
  // ---------------------------------------------------------------------------

  /**
   * Without a country code the usage example is the only reply and nothing
   * is fetched; with one, the lower-cased code is requested and one reply
   * follows.
   */
  lemma TempNumTrace(args: seq<string>, api: string -> Result<ListField<NumberEntry>>)
    ensures FirstArg(args) == "" <==> TempNum(args, api) == [Reply(TEMPNUM_USAGE)]
    ensures FirstArg(args) != "" ==>
              TempNum(args, api) == [Fetch(ListNumbers(Lower(FirstArg(args)))),
                                     Reply(TempNumAnswer(Lower(FirstArg(args)), api(Lower(FirstArg(args)))))]
  {
    UpperOfLower(FirstArg(args));
  }

  /** A completed request is answered with the invalid-response text exactly when the check fails. */
  lemma TempNumRejectsInvalid(code: string, result: ListField<NumberEntry>)
    ensures TempNumAnswer(code, Success(result)) == InvalidNumbersText(code) <==> !ValidNumbers(result)
  {
    if ValidNumbers(result) {
      var text := TempNumAnswer(code, Success(result));
      assert text[0] == NUMBERS_HEADER[0];
      assert InvalidNumbersText(code)[0] == '❌';
    }
  }

  /**
   * Only the first entry's number is checked: a first entry without a
   * number is rejected even when a later one has both a number and a
   * country, and a later entry without a number is listed as `N/A`.
   */
  lemma OnlyFirstEntryChecked()
    ensures !ValidNumbers(List([NumberEntry(None, Some("United States")),
                                NumberEntry(Some("+15550001"), Some("United States"))]))
    ensures var items := [NumberEntry(Some("+15550001"), None), NumberEntry(None, None)];
      ValidNumbers(List(items)) && NumberLines(items) == ["1. +15550001", "2. N/A"]
  {
    var items := [NumberEntry(Some("+15550001"), None), NumberEntry(None, None)];
    assert Decimal(1) == "1" && Decimal(2) == "2";
    assert NumberLines(items)[0] == "1. +15550001";
    assert NumberLines(items)[1] == "2. N/A";
  }

  /**
   * The country shown is that of the first entry with a truthy country,
   * or, when there is none, the argument upper-cased.
   */
  lemma CountryResolution(arg: string, items: seq<NumberEntry>)
    ensures (forall i :: 0 <= i < |items| ==> !Truthy(items[i].country)) ==>
              CountryShown(Lower(arg), items) == Upper(arg)
    ensures forall i: nat :: FirstWithCountry(items, i) ==> CountryShown(Lower(arg), items) == items[i].country.value
  {
    FindCountryIsFirst(items);
    UpperOfLower(arg);
    forall i: nat | FirstWithCountry(items, i) ensures CountryShown(Lower(arg), items) == items[i].country.value {
      var j: nat :| FirstWithCountry(items, j) && items[j].country == FindCountry(items);
      assert !(i < j) && !(j < i);
    }
  }

  /**
   * The number list holds min(15, N) lines; line i is `(i+1). number`, or
   * `(i+1). N/A` for an entry without a number, and its leading numeral
   * reads back as i + 1.
   */
  lemma NumberListShape(items: seq<NumberEntry>)
    ensures |NumberLines(items)| == Min(15, |items|) <= 15
    ensures forall i :: 0 <= i < |NumberLines(items)| ==>
              && NumberLines(items)[i] == Decimal(i + 1) + ". " + (if Truthy(items[i].number) then items[i].number.value else "N/A")
              && ParseDecimal(Decimal(i + 1)) == i + 1
  {
    forall i | 0 <= i < |NumberLines(items)|
      ensures NumberLines(items)[i] == Decimal(i + 1) + ". " + (if Truthy(items[i].number) then items[i].number.value else "N/A")
      ensures ParseDecimal(Decimal(i + 1)) == i + 1
    {
      assert NumberLines(items)[i] == NumberLine(i, items[i]);
      DecimalRoundTrip(i + 1);
    }
  }

  /** The reply's concatenation, with every literal as a variable, regrouped into lines. */
  lemma RegroupReply(h: string, b: string, cp: string, country: string, a: string,
                     j: string, u: string, last: string)
    ensures h + "\n" + (b + "\n") + cp + country + "\n" + (a + "\n") + j + "\n" + (b + "\n") + (u + "\n") + last
            == Terminated([h, b, cp + country, a]) + (j + "\n" + (Terminated([b, u]) + last))
  {
    TerminatedFour(h, b, cp + country, a);
    assert [b, u][1..] == [u];
    assert [u][1..] == [];
    calc {
      Terminated([b, u]);
      b + "\n" + Terminated([u]);
      b + "\n" + (u + "\n" + Terminated([]));
      b + "\n" + (u + "\n");
    }
  }

  /** The numbers reply regrouped as terminated header lines, the joined list and the footer. */
  lemma NumbersReplyRegrouped(country: string, lines: seq<string>)
    ensures NumbersReplyText(country, lines) ==
              Terminated([NUMBERS_HEADER, "│", "│ • Country: " + country, "│ • Available:"])
              + (Join(lines) + "\n" + (Terminated(["│", "│ Use: .otpbox <number>"]) + "╰──「 @KHAN-MD 」"))
  {
    assert "│\n" == "│" + "\n";
    assert "│ • Available:\n" == "│ • Available:" + "\n";
    assert "│ Use: .otpbox <number>\n" == "│ Use: .otpbox <number>" + "\n";
    RegroupReply(NUMBERS_HEADER, "│", "│ • Country: ", country, "│ • Available:", Join(lines),
                 "│ Use: .otpbox <number>", "╰──「 @KHAN-MD 」");
  }

  predicate NumbersBreakFree(items: seq<NumberEntry>)
  {
    forall i :: 0 <= i < |items| ==> items[i].number.Some? ==> NoBreak(items[i].number.value)
  }

  lemma NumberLinesBreakFree(items: seq<NumberEntry>)
    requires NumbersBreakFree(items)
    ensures NoBreaks(NumberLines(items))
  {
    forall i | 0 <= i < |NumberLines(items)| ensures NoBreak(NumberLines(items)[i]) {
      assert NoBreak(NumberOrNa(items[i]));
    }
  }

  /** The fixed lines around the number list hold no line break. */
  lemma NumbersFrameBreakFree(country: string)
    requires NoBreak(country)
    ensures NoBreaks([NUMBERS_HEADER, "│", "│ • Country: " + country, "│ • Available:"])
    ensures NoBreaks(["│", "│ Use: .otpbox <number>"]) && NoBreak("╰──「 @KHAN-MD 」")
  {
    assert NoBreak(NUMBERS_HEADER);
    assert NoBreak("│ • Country: ");
    assert NoBreak("│ • Available:");
    assert NoBreak("│ Use: .otpbox <number>");
  }

  /**
   * When no field holds a line break, the numbers reply splits into its
   * four header lines, the number list and the three footer lines.
   */
  lemma TempNumReplyLines(country: string, items: seq<NumberEntry>)
    requires |items| > 0 && NoBreak(country) && NumbersBreakFree(items)
    ensures Split(NumbersReplyText(country, NumberLines(items))) ==
              [NUMBERS_HEADER, "│", "│ • Country: " + country, "│ • Available:"] + NumberLines(items) + NUMBERS_FOOTER
  {
    var head := [NUMBERS_HEADER, "│", "│ • Country: " + country, "│ • Available:"];
    var feet := ["│", "│ Use: .otpbox <number>"];
    var last := "╰──「 @KHAN-MD 」";
    var lines := NumberLines(items);
    NumberLinesBreakFree(items);
    NumbersReplyRegrouped(country, lines);
    NumbersFrameBreakFree(country);
    SplitAroundJoin(head, lines, feet, last);
    assert feet + [last] == NUMBERS_FOOTER;
    assert head + lines + feet + [last] == head + lines + NUMBERS_FOOTER;
  }

  /** A failed request says "API Timeout" exactly when its message mentions "timeout". */
  lemma TempNumFailureKinds(message: string)
    ensures TempNumFailureText(message) == "❌ Failed: API Timeout" <==> Contains(message, "timeout")
    ensures !Contains(message, "timeout") ==> TempNumFailureText(message) == "❌ Failed: Invalid Response"
  {
    if !Contains(message, "timeout") {
      assert TempNumFailureText(message)[10] == 'I';
      assert ("❌ Failed: API Timeout")[10] == 'A';
    }
  }

  // ---------------------------------------------------------------------------
  // templist
  // ---------------------------------------------------------------------------

  const COUNTRIES_PREFIX := "🌍 *Total Available Countries:* "

  predicate CountriesBreakFree(items: seq<CountryEntry>)
  {
    forall i :: 0 <= i < |items| ==>
      (items[i].title.Some? ==> NoBreak(items[i].title.value)) && (items[i].id.Some? ==> NoBreak(items[i].id.value))
  }

  /** A missing list is reported; a list that is not an array, or a failed request, is a failure. */
  lemma TempListOutcomes(response: Result<ListField<CountryEntry>>)
    ensures response == Success(Missing) ==> TempList(response) == [Fetch(CountryList), Reply(COUNTRY_LIST_MISSING)]
    ensures response.Failure? || response == Success(NotList) ==>
              TempList(response) == [Fetch(CountryList), Reply(TEMPLIST_FAILED)]
  {
  }

  lemma CountryLinesBreakFree(items: seq<CountryEntry>)
    requires CountriesBreakFree(items)
    ensures NoBreaks(CountryLines(items))
  {
    forall i | 0 <= i < |CountryLines(items)| ensures NoBreak(CountryLines(items)[i]) {
      assert NoBreak(Show(items[i].title)) && NoBreak(Show(items[i].id));
    }
  }

  /**
   * One line per country, in order: line i is `*(i+1).* title `(id)``, with
   * an absent field printed as `undefined`, and its numeral reads back as i + 1.
   */
  lemma CountryListShape(items: seq<CountryEntry>)
    ensures |CountryLines(items)| == |items|
    ensures forall i :: 0 <= i < |items| ==>
              && CountryLines(items)[i] == "*" + Decimal(i + 1) + ".* " + Show(items[i].title) + " `(" + Show(items[i].id) + ")`"
              && ParseDecimal(Decimal(i + 1)) == i + 1
  {
    forall i | 0 <= i < |items|
      ensures CountryLines(items)[i] == "*" + Decimal(i + 1) + ".* " + Show(items[i].title) + " `(" + Show(items[i].id) + ")`"
      ensures ParseDecimal(Decimal(i + 1)) == i + 1
    {
      assert CountryLines(items)[i] == CountryLine(i, items[i]);
      DecimalRoundTrip(i + 1);
    }
  }

  /** The number on the total line reads back as the length of the list. */
  lemma CountriesTotal(total: nat)
    ensures CountriesHeader(total)[..|COUNTRIES_PREFIX|] == COUNTRIES_PREFIX
    ensures ParseDecimal(CountriesHeader(total)[|COUNTRIES_PREFIX|..]) == total
    ensures NoBreak(CountriesHeader(total))
  {
    assert CountriesHeader(total)[|COUNTRIES_PREFIX|..] == Decimal(total);
    DecimalRoundTrip(total);
  }

  /**
   * The country listing is a total line whose number reads back as the
   * length of the list, an empty line, and one line per entry.
   */
  lemma TempListLines(items: seq<CountryEntry>)
    requires CountriesBreakFree(items)
    ensures var parts := Split(TempListAnswer(Success(List(items))));
      && parts == [CountriesHeader(|items|), ""] + (if items == [] then [""] else CountryLines(items))
      && parts[0][..|COUNTRIES_PREFIX|] == COUNTRIES_PREFIX
      && ParseDecimal(parts[0][|COUNTRIES_PREFIX|..]) == |items|
  {
    CountryLinesBreakFree(items);
    CountriesTotal(|items|);
    SplitLineBlankJoin(CountriesHeader(|items|), CountryLines(items));
  }

  // ---------------------------------------------------------------------------
  // otpbox
  // ---------------------------------------------------------------------------

  /**
   * Without a number the prompt is the only reply and nothing is fetched;
   * no list or an empty one gives "No messages found", a failed request
   * the failure text, and otherwise the inbox listing is sent.
   */
  lemma OtpBoxOutcomes(args: seq<string>, api: string -> Result<Option<seq<InboxMessage>>>)
    ensures FirstArg(args) == "" <==> OtpBox(args, api) == [Reply(OTP_NO_NUMBER)]
    ensures var number := FirstArg(args);
      number != "" ==>
        && OtpBox(args, api)[0] == Fetch(InboxOf(number))
        && (api(number) == Success(None) || api(number) == Success(Some([])) ==>
              OtpBox(args, api)[1] == Reply(OTP_NO_MESSAGES))
        && (api(number).Failure? ==> OtpBox(args, api)[1] == Reply(OTP_FAILED))
        && (api(number).Success? && api(number).value.Some? && |api(number).value.value| > 0 ==>
              OtpBox(args, api)[1] == Reply(InboxText(number, api(number).value.value)))
  {
  }

  /** The first `n` entries take four lines each, entry k's block numbered k + 1, in order. */
  lemma {:induction false} EntryBlocks(msgs: seq<InboxMessage>, n: nat)
    requires n <= |msgs|
    ensures |AllEntryLines(msgs, n)| == 4 * n
    ensures forall k :: 0 <= k < n ==> AllEntryLines(msgs, n)[4 * k..4 * k + 4] == EntryLines(k, msgs[k])
  {
    if n > 0 {
      EntryBlocks(msgs, n - 1);
      var prev := AllEntryLines(msgs, n - 1);
      var all := AllEntryLines(msgs, n);
      assert all == prev + EntryLines(n - 1, msgs[n - 1]);
      forall k | 0 <= k < n ensures all[4 * k..4 * k + 4] == EntryLines(k, msgs[k]) {
        if k < n - 1 {
          assert all[4 * k..4 * k + 4] == prev[4 * k..4 * k + 4];
        } else {
          assert all[4 * k..4 * k + 4] == EntryLines(n - 1, msgs[n - 1]);
        }
      }
    }
  }

  predicate InboxBreakFree(msgs: seq<InboxMessage>)
  {
    forall i :: 0 <= i < |msgs| ==>
      NoBreak(Show(msgs[i].from)) && NoBreak(Show(msgs[i].timeWib)) && NoBreak(Show(msgs[i].content))
  }

  lemma {:induction false} EntryLinesBreakFree(msgs: seq<InboxMessage>, n: nat)
    requires n <= |msgs| && InboxBreakFree(msgs)
    ensures NoBreaks(AllEntryLines(msgs, n))
  {
    if n > 0 {
      EntryLinesBreakFree(msgs, n - 1);
      assert NoBreaks(EntryLines(n - 1, msgs[n - 1]));
    }
  }

  lemma InboxHeaderBreakFree(number: string, total: nat)
    requires NoBreak(number)
    ensures NoBreaks(InboxHeaderLines(number, total))
  {
    assert NoBreak("╭─「 *OTP Inbox* 」");
    assert NoBreak("│ *Number:* ");
    assert NoBreak("│ *Total Messages:* ");
  }

  /**
   * When no field holds a line break, the inbox reply splits into its four
   * header lines (the number and the total N), min(10, N) four-line entry
   * blocks, and the footer.
   */
  lemma InboxLines(number: string, msgs: seq<InboxMessage>)
    requires NoBreak(number) && InboxBreakFree(msgs)
    ensures Split(InboxText(number, msgs)) ==
              InboxHeaderLines(number, |msgs|) + AllEntryLines(msgs, Min(10, |msgs|)) + [INBOX_FOOTER]
    ensures |AllEntryLines(msgs, Min(10, |msgs|))| == 4 * Min(10, |msgs|)
  {
    var n := Min(MAX_LISTED_MESSAGES, |msgs|);
    var header := InboxHeaderLines(number, |msgs|);
    var entries := AllEntryLines(msgs, n);
    assert NoBreaks(header + entries) by {
      EntryLinesBreakFree(msgs, n);
      InboxHeaderBreakFree(number, |msgs|);
      NoBreaksAppend(header, entries);
    }
    assert NoBreak(INBOX_FOOTER);
    SplitTerminated(header + entries, INBOX_FOOTER);
    SplitNoBreak(INBOX_FOOTER);
    EntryBlocks(msgs, n);
  }
}
