/** WhatsApp exports: lines are matched one by one, and messages may run over several of them. */
module WhatsApp {
  import opened Wrappers
  import opened Text
  import Sorting

  // ----- Lines ----------------------------------------------------------------------------------

  /** `[date, time] sender: content`; `instant` is None when the date does not exist. */
  datatype IosHeader = IosHeader(instant: Option<int>, sender: string, content: string)

  /**
   * `a/b/year time - rest`. `instant` is the datetime constructor applied to a day, a month and the
   * header's other fields; `message` splits the rest into sender and content.
   */
  datatype AndroidHeader = AndroidHeader(first: nat, second: nat, instant: (nat, nat) -> Option<int>,
      message: Option<(string, string)>)

  /** A normalised line and what the two header patterns make of it. */
  datatype Line = Line(text: string, ios: Option<IosHeader>, android: Option<AndroidHeader>)

  datatype Raw = Raw(sender: string, timestamp: int, content: string)

  datatype Role = Assistant | User

  datatype Message = Message(role: Role, content: string, timestamp: int)

  datatype Conversation = Conversation(externalId: string, contactName: string, startedAt: int, messages: seq<Message>)

  datatype ParseError = InvalidDate

  // ----- White space ----------------------------------------------------------------------------

  /** The characters of `s` that are not white space, in order. */
  function Ink(s: string): string {
    if s == [] then [] else (if IsSpace(s[0]) then [] else [s[0]]) + Ink(s[1..])
  }

  lemma {:induction false} InkConcat(a: string, b: string)
    ensures Ink(a + b) == Ink(a) + Ink(b)
  {
    if a == [] {
      assert a + b == b;
    } else {
      assert (a + b)[1..] == a[1..] + b;
      InkConcat(a[1..], b);
    }
  }

  lemma {:induction false} StripLeftKeepsInk(s: string)
    ensures Ink(StripLeft(s)) == Ink(s)
  {
    if s != [] && IsSpace(s[0]) {
      StripLeftKeepsInk(s[1..]);
    }
  }

  lemma {:induction false} StripRightKeepsInk(s: string)
    ensures Ink(StripRight(s)) == Ink(s)
  {
    if s != [] && IsSpace(s[|s| - 1]) {
      var init, c := s[..|s| - 1], s[|s| - 1];
      assert s == init + [c];
      InkConcat(init, [c]);
      StripRightKeepsInk(init);
    }
  }

  lemma StripKeepsInk(s: string)
    ensures Ink(Strip(s)) == Ink(s)
  {
    StripLeftKeepsInk(s);
    StripRightKeepsInk(StripLeft(s));
  }

  // ----- The order of day and month -------------------------------------------------------------

  predicate FirstOver12(line: Line) {
    line.android.Some? && line.android.value.first > 12
  }

  predicate SecondOver12(line: Line) {
    line.android.Some? && line.android.value.second > 12
  }

  /** Day first, unless some second field must be a day and no first field must. */
  predicate DayFirst(lines: seq<Line>) {
    (exists i :: 0 <= i < |lines| && FirstOver12(lines[i])) || !(exists i :: 0 <= i < |lines| && SecondOver12(lines[i]))
  }

  /** `_detect_day_first`. */
  method DetectDayFirst(lines: seq<Line>) returns (dayFirst: bool)
    ensures dayFirst <==> DayFirst(lines)
  {
    var sawSecond := false;
    for i := 0 to |lines|
      invariant forall j :: 0 <= j < i ==> !FirstOver12(lines[j])
      invariant sawSecond <==> exists j :: 0 <= j < i && SecondOver12(lines[j])
    {
      if lines[i].android.None? {
        continue;
      }
      if lines[i].android.value.first > 12 {
        return true;
      }
      if lines[i].android.value.second > 12 {
        sawSecond := true;
      }
    }
    dayFirst := !sawSecond;
  }

  // ----- The declarative grouping ---------------------------------------------------------------

  datatype Kind = Header(raw: Raw) | System | BadDate | Plain(text: string)

  /** What a line is: a header with a sender, a system message, an iOS header that raises, or text. */
  function KindOf(line: Line, dayFirst: bool): Kind {
    if line.ios.Some? then
      var h := line.ios.value;
      if h.instant.None? then BadDate else Header(Raw(Strip(h.sender), h.instant.value, h.content))
    else if line.android.Some? then
      var h := line.android.value;
      var instant := if dayFirst then h.instant(h.first, h.second) else h.instant(h.second, h.first);
      if instant.None? then Plain(line.text)
      else if h.message.None? then System
      else Header(Raw(Strip(h.message.value.0), instant.value, h.message.value.1))
    else Plain(line.text)
  }

  function Kinds(lines: seq<Line>, dayFirst: bool): (r: seq<Kind>)
    ensures |r| == |lines| && forall i :: 0 <= i < |lines| ==> r[i] == KindOf(lines[i], dayFirst)
  {
    seq(|lines|, i requires 0 <= i < |lines| => KindOf(lines[i], dayFirst))
  }

  /** The line starts a message: by whom, when, and how. */
  ghost predicate Starts(line: Line, dayFirst: bool, sender: string, timestamp: int, content: string) {
    || (&& line.ios.Some? && line.ios.value.instant == Some(timestamp)
        && Trimmed(sender, line.ios.value.sender) && content == line.ios.value.content)
    || (&& line.ios.None? && line.android.Some? && line.android.value.message.Some?
        && AndroidTime(line.android.value, dayFirst) == Some(timestamp)
        && Trimmed(sender, line.android.value.message.value.0) && content == line.android.value.message.value.1)
  }

  /** The first field is the day if the file is read so, and the month otherwise. */
  function AndroidTime(h: AndroidHeader, dayFirst: bool): (r: Option<int>)
    ensures dayFirst ==> forall day, month :: day == h.first && month == h.second ==> r == h.instant(day, month)
    ensures !dayFirst ==> forall day, month :: month == h.first && day == h.second ==> r == h.instant(day, month)
  {
    if dayFirst then h.instant(h.first, h.second) else h.instant(h.second, h.first)
  }

  /** What a line counts as, by its two patterns and its date. */
  lemma KindExactly(line: Line, dayFirst: bool)
    ensures var kind := KindOf(line, dayFirst);
            && (kind.BadDate? <==> line.ios.Some? && line.ios.value.instant.None?)
            && (kind.Header? ==> Starts(line, dayFirst, kind.raw.sender, kind.raw.timestamp, kind.raw.content))
            && (kind.System? <==> line.ios.None? && line.android.Some? && line.android.value.message.None?
                                  && AndroidTime(line.android.value, dayFirst).Some?)
            && (kind.Plain? <==> line.ios.None?
                                 && (line.android.None? || AndroidTime(line.android.value, dayFirst).None?))
            && (kind.Plain? ==> kind.text == line.text)
  {
    if line.ios.Some? {
      StripTrims(line.ios.value.sender);
    } else if line.android.Some? && line.android.value.message.Some? {
      StripTrims(line.android.value.message.value.0);
    }
  }

  /** A first field over 12 makes the whole file day first; only then, or without a second one, it is. */
  lemma FileOrder(lines: seq<Line>)
    ensures (exists line :: line in lines && FirstOver12(line)) ==> DayFirst(lines)
    ensures !(exists line :: line in lines && FirstOver12(line)) ==>
              (DayFirst(lines) <==> forall line :: line in lines ==> !SecondOver12(line))
  {
    if line :| line in lines && FirstOver12(line) {
      var i :| 0 <= i < |lines| && lines[i] == line;
    }
    if i :| 0 <= i < |lines| && FirstOver12(lines[i]) {
      assert lines[i] in lines;
    }
    if i :| 0 <= i < |lines| && SecondOver12(lines[i]) {
      assert lines[i] in lines;
    }
    if line :| line in lines && SecondOver12(line) {
      var i :| 0 <= i < |lines| && lines[i] == line;
    }
  }

  predicate DatesValid(kinds: seq<Kind>) {
    forall i :: 0 <= i < |kinds| ==> !kinds[i].BadDate?
  }

  /** The nearest line before `n` that is not plain text. */
  function Nearest(kinds: seq<Kind>, n: nat): (r: Option<nat>)
    requires n <= |kinds|
    ensures r.Some? ==> r.value < n && !kinds[r.value].Plain? && forall i :: r.value < i < n ==> kinds[i].Plain?
    ensures r.None? ==> forall i :: 0 <= i < n ==> kinds[i].Plain?
  {
    if n == 0 then None else if !kinds[n - 1].Plain? then Some(n - 1) else Nearest(kinds, n - 1)
  }

  /** The positions of the headers with a sender among the first `n` lines. */
  function Headers(kinds: seq<Kind>, n: nat): (r: seq<nat>)
    requires n <= |kinds|
    ensures forall j :: 0 <= j < |r| ==> r[j] < n && kinds[r[j]].Header?
    ensures forall i, j :: 0 <= i < j < |r| ==> r[i] < r[j]
    ensures forall h :: 0 <= h < n && kinds[h].Header? ==> h in r
  {
    if n == 0 then [] else Headers(kinds, n - 1) + if kinds[n - 1].Header? then [n - 1] else []
  }

  /** The line belongs to the message that starts at line `h`. */
  predicate Continues(kinds: seq<Kind>, h: nat, i: nat)
    requires i < |kinds|
  {
    kinds[i].Plain? && Nearest(kinds, i) == Some(h)
  }

  /** The content of the message of header `h` once the first `n` lines are read. */
  function Content(kinds: seq<Kind>, h: nat, n: nat): string
    requires h < n <= |kinds| && kinds[h].Header?
    decreases n
  {
    if n == h + 1 then kinds[h].raw.content
    else if Continues(kinds, h, n - 1) then Strip(Content(kinds, h, n - 1) + "\n" + kinds[n - 1].text)
    else Content(kinds, h, n - 1)
  }

  function MessageOf(kinds: seq<Kind>, h: nat, n: nat): Raw
    requires h < n <= |kinds| && kinds[h].Header?
  {
    Raw(kinds[h].raw.sender, kinds[h].raw.timestamp, Content(kinds, h, n))
  }

  /** One message for each header with a sender, in the order of the file. */
  function Grouped(kinds: seq<Kind>, n: nat): (r: seq<Raw>)
    requires n <= |kinds|
    ensures |r| == |Headers(kinds, n)|
  {
    var hs := Headers(kinds, n);
    seq(|hs|, j requires 0 <= j < |hs| => MessageOf(kinds, hs[j], n))
  }

  /** The text that belongs to a message: its header's, then each of its lines', white space aside. */
  function InkOf(kinds: seq<Kind>, h: nat, n: nat): string
    requires h < n <= |kinds| && kinds[h].Header?
    decreases n
  {
    if n == h + 1 then Ink(kinds[h].raw.content)
    else InkOf(kinds, h, n - 1) + if Continues(kinds, h, n - 1) then Ink(kinds[n - 1].text) else []
  }

  lemma InkOfJoined(c: string, t: string)
    ensures Ink(Strip(c + "\n" + t)) == Ink(c) + Ink(t)
  {
    StripKeepsInk(c + "\n" + t);
    InkConcat(c + "\n", t);
    InkConcat(c, "\n");
    assert Ink("\n") == [];
    assert Ink(c) + [] == Ink(c);
  }

  lemma ContentStepInk(kinds: seq<Kind>, h: nat, n: nat)
    requires h + 1 < n <= |kinds| && kinds[h].Header?
    ensures Ink(Content(kinds, h, n))
         == Ink(Content(kinds, h, n - 1)) + if Continues(kinds, h, n - 1) then Ink(kinds[n - 1].text) else []
  {
    var c := Content(kinds, h, n - 1);
    if Continues(kinds, h, n - 1) {
      InkOfJoined(c, kinds[n - 1].text);
    } else {
      assert Content(kinds, h, n) == c && Ink(c) + [] == Ink(c);
    }
  }

  /** No character of a message other than white space is lost, added or moved. */
  lemma {:induction false} InkConserved(kinds: seq<Kind>, h: nat, n: nat)
    requires h < n <= |kinds| && kinds[h].Header?
    ensures Ink(Content(kinds, h, n)) == InkOf(kinds, h, n)
    decreases n
  {
    if n == h + 1 {
    } else {
      InkConserved(kinds, h, n - 1);
      ContentStepInk(kinds, h, n);
    }
  }

  // ----- The loop -------------------------------------------------------------------------------

  lemma GroupedHeader(kinds: seq<Kind>, n: nat)
    requires n < |kinds| && !kinds[n].Plain?
    ensures Grouped(kinds, n + 1) == Grouped(kinds, n) + if kinds[n].Header? then [kinds[n].raw] else []
  {
    var hs := Headers(kinds, n);
    forall j | 0 <= j < |hs| ensures Content(kinds, hs[j], n + 1) == Content(kinds, hs[j], n) {
    }
  }

  function Lengthened(m: Raw, text: string): Raw {
    m.(content := Strip(m.content + "\n" + text))
  }

  /** The last message continued by one line. */
  function WithLine(raw: seq<Raw>, text: string): seq<Raw>
    requires raw != []
  {
    raw[..|raw| - 1] + [Lengthened(raw[|raw| - 1], text)]
  }

  /** A plain line changes the last message only, and only if that message's header is the nearest. */
  lemma GroupedPlain(kinds: seq<Kind>, n: nat)
    requires n < |kinds| && kinds[n].Plain?
    requires Nearest(kinds, n).Some? ==> !kinds[Nearest(kinds, n).value].BadDate?
    ensures Nearest(kinds, n).None? ==> Grouped(kinds, n) == Grouped(kinds, n + 1) == []
    ensures Nearest(kinds, n).Some? && kinds[Nearest(kinds, n).value].System? ==>
          Grouped(kinds, n + 1) == Grouped(kinds, n)
    ensures Nearest(kinds, n).Some? && !kinds[Nearest(kinds, n).value].System? ==>
              && Grouped(kinds, n) != []
              && Grouped(kinds, n + 1) == WithLine(Grouped(kinds, n), kinds[n].text)
  {
    var near := Nearest(kinds, n);
    assert Headers(kinds, n + 1) == Headers(kinds, n);
    if near.None? {
    } else if kinds[near.value].System? {
      GroupedElsewhere(kinds, n);
    } else {
      GroupedLast(kinds, n);
    }
  }

  lemma ContentStep(kinds: seq<Kind>, h: nat, n: nat)
    requires h < n < |kinds| && kinds[h].Header? && kinds[n].Plain?
    ensures Content(kinds, h, n + 1)
         == if Nearest(kinds, n) == Some(h) then Strip(Content(kinds, h, n) + "\n" + kinds[n].text)
            else Content(kinds, h, n)
  {
  }

  lemma GroupedElsewhere(kinds: seq<Kind>, n: nat)
    requires n < |kinds| && kinds[n].Plain?
    requires Nearest(kinds, n).Some? && !kinds[Nearest(kinds, n).value].Header?
    ensures Grouped(kinds, n + 1) == Grouped(kinds, n)
  {
    var hs := Headers(kinds, n);
    forall j | 0 <= j < |hs| ensures MessageOf(kinds, hs[j], n + 1) == MessageOf(kinds, hs[j], n) {
      ContentStep(kinds, hs[j], n);
    }
  }

  lemma GroupedLast(kinds: seq<Kind>, n: nat)
    requires n < |kinds| && kinds[n].Plain?
    requires Nearest(kinds, n).Some? && kinds[Nearest(kinds, n).value].Header?
    ensures Grouped(kinds, n) != [] && Grouped(kinds, n + 1) == WithLine(Grouped(kinds, n), kinds[n].text)
  {
    LastHeader(kinds, n);
    var raw, grown := Grouped(kinds, n), Grouped(kinds, n + 1);
    GrownAt(kinds, n, 0);
    assert |grown| == |raw| > 0;
    forall j | 0 <= j < |raw|
      ensures grown[j] == if j < |raw| - 1 then raw[j] else Lengthened(raw[|raw| - 1], kinds[n].text)
    {
      GrownAt(kinds, n, j);
    }
    LastOnly(raw, grown, Lengthened(raw[|raw| - 1], kinds[n].text));
  }

  lemma GrownAt(kinds: seq<Kind>, n: nat, j: nat)
    requires n < |kinds| && kinds[n].Plain? && j < |Headers(kinds, n)|
    requires Nearest(kinds, n) == Some(Headers(kinds, n)[|Headers(kinds, n)| - 1])
    ensures Headers(kinds, n + 1) == Headers(kinds, n)
    ensures Grouped(kinds, n + 1)[j] ==
            if j < |Headers(kinds, n)| - 1 then Grouped(kinds, n)[j]
            else Lengthened(Grouped(kinds, n)[j], kinds[n].text)
  {
    var hs := Headers(kinds, n);
    assert Headers(kinds, n + 1) == hs;
    ContentStep(kinds, hs[j], n);
  }

  lemma LastOnly(raw: seq<Raw>, grown: seq<Raw>, last: Raw)
    requires |grown| == |raw| > 0
    requires forall j :: 0 <= j < |raw| ==> grown[j] == if j < |raw| - 1 then raw[j] else last
    ensures grown == raw[..|raw| - 1] + [last]
  {
  }

  lemma LastHeader(kinds: seq<Kind>, n: nat)
    requires n <= |kinds| && Nearest(kinds, n).Some? && kinds[Nearest(kinds, n).value].Header?
    ensures Headers(kinds, n) != [] && Headers(kinds, n)[|Headers(kinds, n)| - 1] == Nearest(kinds, n).value
  {
    var hs, near := Headers(kinds, n), Nearest(kinds, n).value;
    var j :| 0 <= j < |hs| && hs[j] == near;
    assert hs[|hs| - 1] >= near;
  }

  /** The loop has read the first `i` lines; `skip` says that the nearest header is a system one. */
  ghost predicate Reading(kinds: seq<Kind>, i: nat, raw: seq<Raw>, skip: bool) {
    && i <= |kinds|
    && (forall j :: 0 <= j < i ==> !kinds[j].BadDate?)
    && raw == Grouped(kinds, i)
    && (skip <==> Nearest(kinds, i).Some? && kinds[Nearest(kinds, i).value].System?)
  }

  /** What one line does to the messages and the skip flag. */
  function Take(raw: seq<Raw>, skip: bool, kind: Kind): (seq<Raw>, bool) {
    match kind
    case Header(m) => (raw + [m], false)
    case System => (raw, true)
    case Plain(text) => (if !skip && raw != [] then WithLine(raw, text) else raw, skip)
    case BadDate => (raw, skip)
  }

  function Taken(kinds: seq<Kind>, n: nat): (seq<Raw>, bool)
    requires n <= |kinds|
  {
    if n == 0 then ([], false) else Take(Taken(kinds, n - 1).0, Taken(kinds, n - 1).1, kinds[n - 1])
  }

  lemma ReadHeader(kinds: seq<Kind>, i: nat, n: nat, raw: seq<Raw>, skip: bool)
    requires n == i + 1 && Reading(kinds, i, raw, skip) && i < |kinds|
    ensures kinds[i].Header? ==> Reading(kinds, n, raw + [kinds[i].raw], false)
    ensures kinds[i].System? ==> Reading(kinds, n, raw, true)
  {
    if !kinds[i].Plain? {
      GroupedHeader(kinds, i);
    }
  }

  lemma ReadPlain(kinds: seq<Kind>, i: nat, n: nat, raw: seq<Raw>, skip: bool)
    requires n == i + 1 && Reading(kinds, i, raw, skip) && i < |kinds| && kinds[i].Plain?
    ensures Reading(kinds, n, if !skip && raw != [] then WithLine(raw, kinds[i].text) else raw, skip)
  {
    GroupedPlain(kinds, i);
    assert Nearest(kinds, n) == Nearest(kinds, i);
  }

  lemma TakeReads(kinds: seq<Kind>, i: nat, n: nat, before: (seq<Raw>, bool), after: (seq<Raw>, bool))
    requires n == i + 1 && i < |kinds| && Reading(kinds, i, before.0, before.1) && !kinds[i].BadDate?
    requires after == Take(before.0, before.1, kinds[i])
    ensures Reading(kinds, n, after.0, after.1)
  {
    ReadHeader(kinds, i, n, before.0, before.1);
    if kinds[i].Plain? {
      ReadPlain(kinds, i, n, before.0, before.1);
    }
  }

  lemma {:induction false} TakenIsGrouped(kinds: seq<Kind>, n: nat, taken: (seq<Raw>, bool))
    requires n <= |kinds| && (forall j :: 0 <= j < n ==> !kinds[j].BadDate?) && taken == Taken(kinds, n)
    ensures Reading(kinds, n, taken.0, taken.1)
  {
    if n == 0 {
    } else {
      var before := Taken(kinds, n - 1);
      TakenIsGrouped(kinds, n - 1, before);
      TakeReads(kinds, n - 1, n, before, taken);
    }
  }

  /** One line of the loop; an impossible date has been dealt with. */
  method ReadLine(raw: seq<Raw>, skip: bool, kind: Kind) returns (grown: seq<Raw>, skipping: bool)
    ensures (grown, skipping) == Take(raw, skip, kind)
  {
    grown, skipping := raw, skip;
    match kind {
      case Header(m) =>
        grown := raw + [m];
        skipping := false;
      case System =>
        skipping := true;
      case Plain(text) =>
        if !skip && raw != [] {
          grown := WithLine(raw, text);
        }
      case BadDate =>
    }
  }

  /** The line loop: exactly the declarative grouping, or the error of the first impossible iOS date. */
  method ReadMessages(lines: seq<Line>, dayFirst: bool) returns (r: Result<seq<Raw>, ParseError>)
    ensures r == if DatesValid(Kinds(lines, dayFirst)) then Ok(Grouped(Kinds(lines, dayFirst), |lines|))
                 else Err(InvalidDate)
  {
    var raw: seq<Raw> := [];
    var skip := false;
    ghost var kinds := Kinds(lines, dayFirst);
    for i := 0 to |lines|
      invariant Taken(kinds, i) == (raw, skip)
      invariant forall j :: 0 <= j < i ==> !kinds[j].BadDate?
    {
      var kind := KindOf(lines[i], dayFirst);
      assert kind == kinds[i];
      if kind.BadDate? {
        return Err(InvalidDate);
      }
      raw, skip := ReadLine(raw, skip, kind);
    }
    TakenIsGrouped(kinds, |kinds|, (raw, skip));
    r := Ok(raw);
  }

  // ----- The conversation -----------------------------------------------------------------------

  /** The first sender that is not the agent; the agent if there is no other. */
  function Customer(raw: seq<Raw>, agent: string): string {
    if raw == [] then agent else if raw[0].sender != agent then raw[0].sender else Customer(raw[1..], agent)
  }

  function MessageFrom(m: Raw, agent: string): Message {
    Message(if m.sender == agent then Assistant else User, m.content, m.timestamp)
  }

  function MessagesFrom(raw: seq<Raw>, agent: string): (r: seq<Message>)
    ensures |r| == |raw| && forall i :: 0 <= i < |raw| ==> r[i] == MessageFrom(raw[i], agent)
  {
    seq(|raw|, i requires 0 <= i < |raw| => MessageFrom(raw[i], agent))
  }

  function ByTime(): Message -> int {
    (m: Message) => m.timestamp
  }

  function ConversationOf(raw: seq<Raw>, digest: string): Conversation
    requires raw != []
  {
    var agent := raw[0].sender;
    Conversation("wa-" + digest, Customer(raw, agent), raw[0].timestamp,
                 Sorting.StableSort(MessagesFrom(raw, agent), ByTime()))
  }

  /** `parse`: at most one conversation a file. */
  method Parse(lines: seq<Line>, digest: string) returns (r: Result<Option<Conversation>, ParseError>)
    ensures var kinds := Kinds(lines, DayFirst(lines));
            r == if !DatesValid(kinds) then Err(InvalidDate)
                 else if Grouped(kinds, |lines|) == [] then Ok(None)
                 else Ok(Some(ConversationOf(Grouped(kinds, |lines|), digest)))
  {
    var dayFirst := DetectDayFirst(lines);
    var read := ReadMessages(lines, dayFirst);
    if read.Err? {
      return Err(InvalidDate);
    }
    var raw := read.value;
    if raw == [] {
      return Ok(None);
    }
    var agent := raw[0].sender;
    var messages: seq<Message> := [];
    for i := 0 to |raw|
      invariant messages == MessagesFrom(raw, agent)[..i]
    {
      messages := messages + [MessageFrom(raw[i], agent)];
    }
    assert messages == MessagesFrom(raw, agent);
    var sorted := Sorting.StableSort(messages, ByTime());
    r := Ok(Some(Conversation("wa-" + digest, Customer(raw, agent), raw[0].timestamp, sorted)));
  }

  /** Message number `i` is the first that is not by the agent. */
  predicate FirstOther(raw: seq<Raw>, agent: string, i: int) {
    0 <= i < |raw| && raw[i].sender != agent && forall j :: 0 <= j < i ==> raw[j].sender == agent
  }

  lemma {:induction false} CustomerIs(raw: seq<Raw>, agent: string)
    ensures forall i :: FirstOther(raw, agent, i) ==> Customer(raw, agent) == raw[i].sender
    ensures (forall i :: 0 <= i < |raw| ==> raw[i].sender == agent) ==> Customer(raw, agent) == agent
  {
    if raw == [] {
    } else {
      var rest := raw[1..];
      CustomerIs(rest, agent);
      assert forall i :: 0 < i < |raw| ==> raw[i] == rest[i - 1];
      forall i | FirstOther(raw, agent, i) && 0 < i ensures Customer(raw, agent) == raw[i].sender {
        assert FirstOther(rest, agent, i - 1);
      }
    }
  }

  /** The messages of a file, one for each line that starts one, in its order. */
  lemma MessagesOfFile(lines: seq<Line>, dayFirst: bool, j: nat)
    requires j < |Headers(Kinds(lines, dayFirst), |lines|)|
    ensures var kinds := Kinds(lines, dayFirst);
            var m, h := Grouped(kinds, |lines|)[j], Headers(kinds, |lines|)[j];
            && Starts(lines[h], dayFirst, m.sender, m.timestamp, kinds[h].raw.content)
            && Ink(m.content) == InkOf(kinds, h, |lines|)
  {
    var kinds := Kinds(lines, dayFirst);
    var h := Headers(kinds, |lines|)[j];
    KindExactly(lines[h], dayFirst);
    InkConserved(kinds, h, |lines|);
  }

  /**
   * What comes out of a file with valid dates: one message for each line that starts one, with its sender and
   * time, holding exactly the ink of that line and of the plain lines whose nearest header it is, in order;
   * all of them sorted by time, equal times in the order of the file. The first sender is the agent.
   */
  lemma ParsedConversation(lines: seq<Line>, digest: string)
    requires DatesValid(Kinds(lines, DayFirst(lines)))
    requires Grouped(Kinds(lines, DayFirst(lines)), |lines|) != []
    ensures var kinds := Kinds(lines, DayFirst(lines));
            var hs, raw := Headers(kinds, |lines|), Grouped(kinds, |lines|);
            var c := ConversationOf(raw, digest);
            var unsorted := MessagesFrom(raw, raw[0].sender);
            && |unsorted| == |raw| == |hs|
            && (forall j :: 0 <= j < |hs| ==>
                  && Starts(lines[hs[j]], DayFirst(lines), raw[j].sender, unsorted[j].timestamp,
                            kinds[hs[j]].raw.content)
                  && (unsorted[j].role == Assistant <==> raw[j].sender == raw[0].sender)
                  && Ink(unsorted[j].content) == InkOf(kinds, hs[j], |lines|))
            && c.startedAt == unsorted[0].timestamp && c.externalId == "wa-" + digest
            && Sorting.Sorted(c.messages, ByTime())
            && multiset(c.messages) == multiset(unsorted)
            && (forall t :: Sorting.WithKey(c.messages, ByTime(), t) == Sorting.WithKey(unsorted, ByTime(), t))
  {
    var kinds := Kinds(lines, DayFirst(lines));
    var hs, raw := Headers(kinds, |lines|), Grouped(kinds, |lines|);
    forall j | 0 <= j < |hs|
      ensures Starts(lines[hs[j]], DayFirst(lines), raw[j].sender, raw[j].timestamp, kinds[hs[j]].raw.content)
      ensures Ink(raw[j].content) == InkOf(kinds, hs[j], |lines|)
    {
      MessagesOfFile(lines, DayFirst(lines), j);
    }
    Sorting.StableSortProperties(MessagesFrom(raw, raw[0].sender), ByTime());
  }

  /** Its contact is the first sender that is not the agent; the agent if there is no other. */
  lemma ContactOfFile(raw: seq<Raw>, digest: string)
    requires raw != []
    ensures var name, agent := ConversationOf(raw, digest).contactName, raw[0].sender;
            && (forall i :: FirstOther(raw, agent, i) ==> name == raw[i].sender)
            && ((forall i :: 0 <= i < |raw| ==> raw[i].sender == agent) ==> name == agent)
  {
    CustomerIs(raw, raw[0].sender);
  }
}
