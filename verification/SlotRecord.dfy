/**
 The lock file of a GPU slot: the record written into it, how the record is read back, and the operations that claim the
 slot, keep it alive and release it. Each operation is one step on the content of the file.
 */
module SlotRecord {

  import opened Wrappers

  // ---------------------------------------------------------------------------
  // Texts
  // ---------------------------------------------------------------------------

  predicate IsSpace(c: char) {
    '\t' <= c <= '\r' || 0x1C as char <= c <= ' '
  }

  function StripLeft(s: string): string {
    if s != [] && IsSpace(s[0]) then StripLeft(s[1..]) else s
  }

  function StripRight(s: string): string {
    if s != [] && IsSpace(s[|s| - 1]) then StripRight(s[..|s| - 1]) else s
  }

  function Strip(s: string): string {
    StripRight(StripLeft(s))
  }

  function IndexOf(s: string, c: char): (i: nat)
    ensures i <= |s| && c !in s[..i] && (i < |s| ==> s[i] == c)
  {
    if s == [] || s[0] == c then 0
    else
      var i := 1 + IndexOf(s[1..], c);
      assert s[..i] == [s[0]] + s[1..][..i - 1];
      i
  }

  function Split(s: string, c: char): (parts: seq<string>)
    ensures parts != []
  {
    var i := IndexOf(s, c);
    if i == |s| then [s] else [s[..i]] + Split(s[i + 1..], c)
  }

  function Join(parts: seq<string>, c: char): string {
    if parts == [] then [] else if |parts| == 1 then parts[0] else parts[0] + [c] + Join(parts[1..], c)
  }

  lemma {:induction false} IndexOfFirst(a: string, c: char, rest: string)
    requires c !in a
    ensures IndexOf(a, c) == |a| && IndexOf(a + [c] + rest, c) == |a|
  {
    if a != [] {
      IndexOfFirst(a[1..], c, rest);
      assert (a + [c] + rest)[1..] == a[1..] + [c] + rest;
    }
  }

  lemma SplitFirst(a: string, c: char, rest: string)
    requires c !in a
    ensures Split(a, c) == [a] && Split(a + [c] + rest, c) == [a] + Split(rest, c)
  {
    IndexOfFirst(a, c, rest);
    assert (a + [c] + rest)[..|a|] == a && (a + [c] + rest)[|a| + 1..] == rest;
  }

  /** The parts of a text hold no separator, and only characters of the text. */
  lemma {:induction false} PartsOfSplit(s: string, c: char, k: nat)
    requires k < |Split(s, c)|
    ensures c !in Split(s, c)[k] && forall x :: x in Split(s, c)[k] ==> x in s
    ensures k == 0 ==> Split(s, c)[k] <= s
  {
    var i := IndexOf(s, c);
    if i < |s| && k > 0 {
      PartsOfSplit(s[i + 1..], c, k - 1);
    }
  }

  lemma {:induction false} PartsOfJoin(parts: seq<string>, c: char, x: char)
    requires x != c && forall k :: 0 <= k < |parts| ==> x !in parts[k]
    ensures x !in Join(parts, c)
  {
    if |parts| > 1 {
      PartsOfJoin(parts[1..], c, x);
    }
  }

  // ---------------------------------------------------------------------------
  // Numbers
  // ---------------------------------------------------------------------------

  const DIGITS := "0123456789"

  predicate IsDigit(c: char) {
    '0' <= c <= '9'
  }

  predicate AllDigits(s: string) {
    s != [] && forall i :: 0 <= i < |s| ==> IsDigit(s[i])
  }

  function Decimal(n: nat): string {
    if n < 10 then [DIGITS[n]] else Decimal(n / 10) + [DIGITS[n % 10]]
  }

  function Text(n: int): string {
    if n < 0 then "-" + Decimal(-n) else Decimal(n)
  }

  function DigitValue(c: char): nat
    requires IsDigit(c)
  {
    c as int - '0' as int
  }

  function Value(s: string): nat
    requires forall i :: 0 <= i < |s| ==> IsDigit(s[i])
  {
    if s == [] then 0 else Value(s[..|s| - 1]) * 10 + DigitValue(s[|s| - 1])
  }

  /** A number if the text is made of digits, and 0 otherwise. */
  function ValueOr0(s: string): nat {
    if AllDigits(s) then Value(s) else 0
  }

  lemma {:induction false} DecimalValue(n: nat)
    ensures AllDigits(Decimal(n)) && Value(Decimal(n)) == n
  {
    if n >= 10 {
      DecimalValue(n / 10);
      assert Decimal(n)[..|Decimal(n)| - 1] == Decimal(n / 10);
    }
  }

  lemma TextValue(n: int)
    ensures ValueOr0(Text(n)) == if n < 0 then 0 else n
    ensures Text(n) != [] && IsDigit(Text(n)[|Text(n)| - 1])
    ensures ':' !in Text(n) && '|' !in Text(n)
  {
    DecimalValue(if n < 0 then -n else n);
    assert n < 0 ==> Text(n)[0] == '-';
  }

  /** The text of a number as the language reads one: space around it, a sign, and single underscores between digits. */
  function Integer(text: string): Option<int> {
    var s := Strip(text);
    var digits := Unsigned(s);
    if !Grouped(digits) then None
    else
      var n: int := Value(Ungroup(digits));
      Some(if s[0] == '-' then -n else n)
  }

  function Unsigned(s: string): string {
    if s != [] && (s[0] == '+' || s[0] == '-') then s[1..] else s
  }

  predicate Grouped(s: string) {
    && s != [] && IsDigit(s[0]) && IsDigit(s[|s| - 1])
    && (forall i :: 0 <= i < |s| ==> IsDigit(s[i]) || s[i] == '_')
    && (forall i, j :: 0 <= i < |s| && j == i + 1 < |s| ==> IsDigit(s[i]) || IsDigit(s[j]))
  }

  function Ungroup(s: string): (r: string)
    ensures forall i :: 0 <= i < |r| ==> IsDigit(r[i])
  {
    if s == [] then [] else (if IsDigit(s[0]) then [s[0]] else []) + Ungroup(s[1..])
  }

  lemma {:induction false} UngroupDigits(s: string)
    requires forall i :: 0 <= i < |s| ==> IsDigit(s[i])
    ensures Ungroup(s) == s
  {
    if s != [] {
      UngroupDigits(s[1..]);
    }
  }

  lemma GroupedDigits(s: string, digits: string)
    requires AllDigits(digits) && (s == digits || s == ['-'] + digits)
    ensures Strip(s) == s && Unsigned(s) == digits && Grouped(digits) && Ungroup(digits) == digits
  {
    assert s[|s| - 1] == digits[|digits| - 1];
    UngroupDigits(digits);
  }

  /** The text of a number is read as that number. */
  lemma IntegerOfText(n: int)
    ensures Integer(Text(n)) == Some(n)
  {
    DecimalValue(if n < 0 then -n else n);
    GroupedDigits(Text(n), Decimal(if n < 0 then -n else n));
  }

  // ---------------------------------------------------------------------------
  // Records
  // ---------------------------------------------------------------------------

  datatype Info = Info(host: string, pid: int, claimedAt: string, heartbeat: string, deadline: int)

  function Base(i: Info): string {
    i.host + [':'] + Text(i.pid)
  }

  function Extended(i: Info): string {
    i.claimedAt + ['|'] + (i.heartbeat + ['|'] + Text(i.deadline))
  }

  function Body(i: Info): string {
    Base(i) + ['|'] + Extended(i)
  }

  function Print(i: Info): string {
    Body(i) + ['\n']
  }

  function ParseFields(content: string): Option<Info> {
    var bar := IndexOf(content, '|');
    if bar < |content| then
      var extended := Split(content[bar + 1..], '|');
      var hostPid := Split(content[..bar], ':');
      if |hostPid| < 2 then None
      else Some(Info(hostPid[0], ValueOr0(hostPid[1]), extended[0],
                     if |extended| > 1 then extended[1] else "", if |extended| > 2 then ValueOr0(extended[2]) else 0))
    else
      var parts := Split(content, ':');
      if |parts| < 2 then None
      else Some(Info(parts[0], ValueOr0(parts[1]), Join(parts[2..], ':'), "", 0))
  }

  /** The record in the file, in the current format or in the legacy one. */
  function Parse(content: string): Option<Info> {
    var stripped := Strip(content);
    if stripped == [] then None else ParseFields(stripped)
  }

  /** The fields that a record can hold. */
  predicate Printable(i: Info) {
    && ':' !in i.host && '|' !in i.host && (i.host != [] ==> !IsSpace(i.host[0]))
    && '|' !in i.claimedAt && '|' !in i.heartbeat
    && i.pid >= 0 && i.deadline >= 0
  }

  lemma StripText(s: string)
    requires s != [] && !IsSpace(s[0]) && !IsSpace(s[|s| - 1])
    ensures Strip(s + ['\n']) == s
  {
    assert (s + ['\n'])[0] == s[0] && (s + ['\n'])[..|s|] == s;
    assert StripRight(s) == s;
  }

  lemma StripBody(i: Info)
    requires Printable(i)
    ensures Strip(Print(i)) == Body(i)
  {
    TextValue(i.deadline);
    assert Body(i)[0] == if i.host == [] then ':' else i.host[0];
    assert Body(i)[|Body(i)| - 1] == Text(i.deadline)[|Text(i.deadline)| - 1];
    StripText(Body(i));
  }

  lemma CurrentFields(host: string, pid: string, claimedAt: string, heartbeat: string, deadline: string)
    requires ':' !in host && '|' !in host && ':' !in pid && '|' !in pid
    requires '|' !in claimedAt && '|' !in heartbeat && '|' !in deadline
    ensures ParseFields((host + [':'] + pid) + ['|'] + (claimedAt + ['|'] + (heartbeat + ['|'] + deadline)))
      == Some(Info(host, ValueOr0(pid), claimedAt, heartbeat, ValueOr0(deadline)))
  {
    var base, extended := host + [':'] + pid, claimedAt + ['|'] + (heartbeat + ['|'] + deadline);
    var s := base + ['|'] + extended;
    IndexOfFirst(base, '|', extended);
    assert s[..|base|] == base && s[|base| + 1..] == extended;
    SplitFirst(host, ':', pid);
    SplitFirst(pid, ':', []);
    SplitFirst(claimedAt, '|', heartbeat + ['|'] + deadline);
    SplitFirst(heartbeat, '|', deadline);
    SplitFirst(deadline, '|', []);
  }

  /** A record may end after the process id, the claim time or the heartbeat; what is missing is empty or 0. */
  lemma BareFields(host: string, pid: string)
    requires ':' !in host && '|' !in host && ':' !in pid && '|' !in pid
    ensures ParseFields(host + [':'] + pid) == Some(Info(host, ValueOr0(pid), "", "", 0))
  {
    SplitFirst(host, ':', pid);
    SplitFirst(pid, ':', []);
    IndexOfFirst(host + [':'] + pid, '|', []);
  }

  lemma ShortFields(host: string, pid: string, extended: string)
    requires ':' !in host && '|' !in host && ':' !in pid && '|' !in pid
    ensures var parts := Split(extended, '|');
      ParseFields((host + [':'] + pid) + ['|'] + extended) ==
      Some(Info(host, ValueOr0(pid), parts[0], if |parts| == 1 then "" else parts[1],
                if |parts| <= 2 then 0 else ValueOr0(parts[2])))
  {
    var base := host + [':'] + pid;
    SplitFirst(host, ':', pid);
    SplitFirst(pid, ':', []);
    IndexOfFirst(base, '|', extended);
    var s := base + ['|'] + extended;
    assert s[..|base|] == base && s[|base| + 1..] == extended;
  }

  lemma ParsePrint(i: Info)
    requires Printable(i)
    ensures Parse(Print(i)) == Some(i)
  {
    StripBody(i);
    TextValue(i.pid);
    TextValue(i.deadline);
    CurrentFields(i.host, Text(i.pid), i.claimedAt, i.heartbeat, Text(i.deadline));
  }

  lemma {:induction false} StripRightIsPrefix(s: string)
    ensures StripRight(s) <= s
  {
    if s != [] && IsSpace(s[|s| - 1]) {
      StripRightIsPrefix(s[..|s| - 1]);
    }
  }

  lemma {:induction false} StripLeftStart(s: string)
    ensures StripLeft(s) != [] ==> !IsSpace(StripLeft(s)[0])
  {
    if s != [] && IsSpace(s[0]) {
      StripLeftStart(s[1..]);
    }
  }

  /** Whatever the file holds, what is read from it can be written into a record. */
  lemma ParsedIsPrintable(content: string)
    requires Parse(content).Some?
    ensures Printable(Parse(content).value)
  {
    var s := Strip(content);
    StripLeftStart(content);
    StripRightIsPrefix(StripLeft(content));
    var bar := IndexOf(s, '|');
    if bar < |s| {
      PartsOfSplit(s[..bar], ':', 0);
      var extended := Split(s[bar + 1..], '|');
      PartsOfSplit(s[bar + 1..], '|', 0);
      if |extended| > 1 {
        PartsOfSplit(s[bar + 1..], '|', 1);
      }
    } else {
      assert s[..bar] == s;
      forall k | 0 <= k < |Split(s, ':')| ensures '|' !in Split(s, ':')[k] {
        PartsOfSplit(s, ':', k);
      }
      PartsOfSplit(s, ':', 0);
      PartsOfJoin(Split(s, ':')[2..], ':', '|');
    }
  }

  /** Reading a record gives back what was written exactly when its fields can be held. */
  lemma ParsePrintIff(i: Info)
    ensures Parse(Print(i)) == Some(i) <==> Printable(i)
  {
    if Printable(i) {
      ParsePrint(i);
    }
    if Parse(Print(i)) == Some(i) {
      ParsedIsPrintable(Print(i));
    }
  }

  lemma LegacyFields(host: string, pid: string, claimedAt: string)
    requires ':' !in host && '|' !in host && ':' !in pid && '|' !in pid && '|' !in claimedAt
    ensures ParseFields(host + [':'] + (pid + [':'] + claimedAt)) == Some(Info(host, ValueOr0(pid), claimedAt, "", 0))
  {
    var rest := pid + [':'] + claimedAt;
    var s := host + [':'] + rest;
    assert '|' !in rest;
    assert '|' !in s;
    IndexOfFirst(s, '|', []);
    SplitFirst(host, ':', rest);
    SplitFirst(pid, ':', claimedAt);
    var tail := Split(claimedAt, ':');
    assert Split(s, ':') == [host] + ([pid] + tail);
    assert ([host] + ([pid] + tail))[2..] == tail;
    JoinSplit(claimedAt, ':');
  }

  /** A record of the legacy format is read as what it says, with no heartbeat and no deadline. */
  lemma ParseLegacy(host: string, pid: nat, claimedAt: string)
    requires Printable(Info(host, pid, claimedAt, "", 0)) && (claimedAt != [] ==> !IsSpace(claimedAt[|claimedAt| - 1]))
    ensures Parse(host + [':'] + (Text(pid) + [':'] + claimedAt) + ['\n']) == Some(Info(host, pid, claimedAt, "", 0))
  {
    var s := host + [':'] + (Text(pid) + [':'] + claimedAt);
    TextValue(pid);
    LegacyFields(host, Text(pid), claimedAt);
    StripText(s);
  }

  lemma {:induction false} JoinSplit(s: string, c: char)
    ensures Join(Split(s, c), c) == s
  {
    var i := IndexOf(s, c);
    if i < |s| {
      var first, rest := s[..i], s[i + 1..];
      assert s == first + [c] + rest;
      JoinSplit(rest, c);
      JoinMore(first, Split(rest, c), c);
    }
  }

  lemma JoinMore(first: string, rest: seq<string>, c: char)
    requires rest != []
    ensures Join([first] + rest, c) == first + [c] + Join(rest, c)
  {
    assert ([first] + rest)[1..] == rest;
  }

  // ---------------------------------------------------------------------------
  // The operations on a slot
  // ---------------------------------------------------------------------------

  const DEFAULT_DEADLINE_SECONDS := 3600

  /** What probing a process answers. */
  datatype Probe = Alive | NoProcess | NotPermitted

  datatype Op =
    | Claim(host: string, pid: nat, probe: Probe, at: string, deadline: int)
    | Heartbeat(host: string, at: string, again: string, now: int)
    | Release(host: string)
    | ForceRelease

  /** The content check of a claim: taken, unless the holder is a process of this host that is not seen alive. */
  predicate Taken(content: string, host: string, probe: Probe) {
    var parts := Split(Strip(content), ':');
    Strip(content) != [] && |parts| >= 2 &&
    var pid := Integer(parts[1]);
    !(parts[0] == host && pid.Some? && pid.value > 0) || probe == Alive
  }

  function Renewed(i: Info, at: string, again: string, now: int): Info {
    i.(heartbeat := at, claimedAt := if i.claimedAt == "" then again else i.claimedAt,
       deadline := if i.deadline == 0 then now + DEFAULT_DEADLINE_SECONDS else i.deadline)
  }

  function ReleasedBy(content: string, host: string): bool {
    var holder := Split(Strip(content), ':')[0];
    holder == [] || holder == host
  }

  /** The content of the file; there may be no file. */
  function Content(file: Option<string>): string {
    if file.Some? then file.value else ""
  }

  function Apply(file: Option<string>, op: Op): Option<string> {
    match op
    case Claim(host, pid, probe, at, deadline) =>
      if Taken(Content(file), host, probe) then file else Some(Print(Info(host, pid, at, at, deadline)))
    case Heartbeat(host, at, again, now) =>
      var info := Parse(Content(file));
      if info.Some? && info.value.host == host then Some(Print(Renewed(info.value, at, again, now))) else file
    case Release(host) => if file.Some? && ReleasedBy(file.value, host) then Some("") else file
    case ForceRelease => if file.Some? then Some("") else file
  }

  class SlotFile {
    var file: Option<string>

    constructor ()
      ensures file == None
    {
      file := None;
    }

    method ClaimSlot(host: string, pid: nat, probe: Probe, at: string, deadline: int) returns (claimed: bool)
      modifies this
      ensures claimed == !Taken(Content(old(file)), host, probe)
      ensures file == Apply(old(file), Claim(host, pid, probe, at, deadline))
      ensures old(file) == None || ':' !in old(file).value ==> claimed
      ensures !claimed ==> file == old(file)
      ensures claimed ==>
        file == Some(host + ":" + Text(pid) + "|" + at + "|" + at + "|" + Text(deadline) + "\n")
    {
      if ':' !in Content(file) {
        WithoutColonIsFree(Content(file), host, probe);
      }
      PrintedText(Info(host, pid, at, at, deadline));
      if file.Some? {
        var stripped := Strip(file.value);
        if stripped != [] {
          var parts := Split(stripped, ':');
          if |parts| >= 2 {
            var read := Integer(parts[1]);
            var holderPid := if read.Some? then read.value else 0;
            if parts[0] == host && holderPid > 0 {
              if probe == Alive {
                return false;
              }
            } else {
              return false;
            }
          }
        }
      }
      file := Some(Print(Info(host, pid, at, at, deadline)));
      return true;
    }

    method HeartbeatSlot(host: string, at: string, again: string, now: int) returns (renewed: bool)
      modifies this
      ensures renewed == (Parse(Content(old(file))).Some? && Parse(Content(old(file))).value.host == host)
      ensures file == Apply(old(file), Heartbeat(host, at, again, now))
      ensures !renewed ==> file == old(file)
    {
      if file.None? {
        return false;
      }
      var info := Parse(file.value);
      if info.None? || info.value.host != host {
        return false;
      }
      var claimedAt := if info.value.claimedAt != "" then info.value.claimedAt else again;
      var deadline := if info.value.deadline != 0 then info.value.deadline else now + DEFAULT_DEADLINE_SECONDS;
      file := Some(Print(Info(host, info.value.pid, claimedAt, at, deadline)));
      return true;
    }

    method ReleaseSlot(host: string) returns (released: bool)
      modifies this
      ensures released == (old(file).Some? && ReleasedBy(old(file).value, host))
      ensures file == Apply(old(file), Release(host))
      ensures file == if released then Some("") else old(file)
      ensures old(file) == Some("") ==> released
    {
      if file.None? {
        return false;
      }
      var stripped := Strip(file.value);
      if stripped != [] {
        var holder := Split(stripped, ':')[0];
        if holder != [] && holder != host {
          return false;
        }
      }
      file := Some("");
      return true;
    }
  }

  lemma PrintedText(i: Info)
    ensures Print(i)
      == i.host + ":" + Text(i.pid) + "|" + i.claimedAt + "|" + i.heartbeat + "|" + Text(i.deadline) + "\n"
  {
  }

  lemma {:induction false} StripLeftAdds(s: string, c: char)
    requires c in StripLeft(s)
    ensures c in s
  {
    if IsSpace(s[0]) {
      StripLeftAdds(s[1..], c);
    }
  }

  lemma {:induction false} SplitNothing(s: string, c: char)
    requires c !in s
    ensures Split(s, c) == [s]
  {
    IndexOfFirst(s, c, []);
  }

  /** A file without a colon, an empty one above all, is free to claim and to release. */
  lemma WithoutColonIsFree(content: string, host: string, probe: Probe)
    requires ':' !in content
    ensures !Taken(content, host, probe)
  {
    var s := Strip(content);
    if ':' in s {
      StripRightIsPrefix(StripLeft(content));
      StripLeftAdds(content, ':');
      assert false;
    }
    SplitNothing(s, ':');
  }

  /**
   What a release does to a record that a claim has written: for its own host it clears the file, which whoever comes
   next can then claim; any other host is refused.
   */
  lemma ReleasedIsFree(i: Info, host: string, next: string, pid: nat, probe: Probe, at: string, deadline: int)
    requires Printable(i) && i.host != ""
    ensures var file := Apply(Some(Print(i)), Release(host));
      && file == Some(if i.host == host then "" else Print(i)) && Apply(Some(Print(i)), ForceRelease) == Some("")
      && Apply(file, Claim(next, pid, probe, at, deadline))
           == Some(if i.host == host then Print(Info(next, pid, at, at, deadline)) else Print(i))
  {
    StripBody(i);
    SecondField(i);
    if i.host == host {
      WithoutColonIsFree("", next, probe);
    } else {
      RecordIsTaken(i, next, probe);
    }
  }

  /** The heartbeat keeps the host, the process, and the claim time and deadline if the record has them. */
  lemma HeartbeatKeeps(content: string, host: string, at: string, again: string, now: int)
    requires Parse(content).Some? && Parse(content).value.host == host && '|' !in at && '|' !in again && now >= 0
    ensures var file := Apply(Some(content), Heartbeat(host, at, again, now));
      var was := Parse(content).value;
      && file.Some?
      && Parse(file.value) == Some(Info(host, was.pid, if was.claimedAt == "" then again else was.claimedAt, at,
                                        if was.deadline == 0 then now + 3600 else was.deadline))
  {
    ParsedIsPrintable(content);
    ParsePrint(Renewed(Parse(content).value, at, again, now));
  }

  /** The second field of a record, up to a colon, is never a number: it holds the bar after the process id. */
  lemma SecondField(i: Info)
    requires Printable(i)
    ensures var parts := Split(Body(i), ':'); |parts| >= 2 && parts[0] == i.host && Integer(parts[1]).None?
  {
    var rest := Text(i.pid) + ['|'] + Extended(i);
    TextValue(i.pid);
    assert Body(i) == i.host + [':'] + rest;
    SplitFirst(i.host, ':', rest);
    FirstPartReaches(Text(i.pid), ':', '|', Extended(i));
    NotInteger(Split(rest, ':')[0], |Text(i.pid)|);
  }

  /** The first part goes at least up to another separator. */
  lemma FirstPartReaches(a: string, c: char, d: char, rest: string)
    requires c !in a && c != d
    ensures var first := Split(a + [d] + rest, c)[0]; |first| > |a| && first[|a|] == d
  {
    var s := a + [d] + rest;
    assert s[|a|] == d && forall k :: 0 <= k < |a| ==> s[k] == a[k];
    assert Split(s, c)[0] == s[..IndexOf(s, c)];
  }

  lemma NotInteger(s: string, k: nat)
    requires k < |s| && s[k] == '|'
    ensures Integer(s).None?
  {
    StripKeeps(s, '|');
    var t := Strip(s);
    assert '|' in Unsigned(t);
  }

  lemma {:induction false} StripLeftKeeps(s: string, c: char)
    requires c in s && !IsSpace(c)
    ensures c in StripLeft(s)
  {
    if IsSpace(s[0]) {
      StripLeftKeeps(s[1..], c);
    }
  }

  lemma {:induction false} StripRightKeeps(s: string, c: char)
    requires c in s && !IsSpace(c)
    ensures c in StripRight(s)
  {
    if IsSpace(s[|s| - 1]) {
      StripRightKeeps(s[..|s| - 1], c);
    }
  }

  lemma StripKeeps(s: string, c: char)
    requires c in s && !IsSpace(c)
    ensures c in Strip(s)
  {
    StripLeftKeeps(s, c);
    StripRightKeeps(StripLeft(s), c);
  }

  /** A claim is refused by every record, whoever asks and whether or not its process is alive. */
  lemma RecordIsTaken(i: Info, host: string, probe: Probe)
    requires Printable(i)
    ensures Taken(Print(i), host, probe)
  {
    StripBody(i);
    SecondField(i);
  }

  lemma LegacyParts(owner: string, pid: string, claimedAt: string)
    requires ':' !in owner && ':' !in pid
    ensures var parts := Split(owner + [':'] + (pid + [':'] + claimedAt), ':');
      |parts| >= 2 && parts[0] == owner && parts[1] == pid
  {
    SplitFirst(owner, ':', pid + [':'] + claimedAt);
    SplitFirst(pid, ':', claimedAt);
  }

  /** A record in the legacy format refuses a claim, unless it is of this host and its process is not seen alive. */
  lemma LegacyIsTaken(owner: string, pid: int, claimedAt: string, host: string, probe: Probe)
    requires ':' !in owner && (owner != [] ==> !IsSpace(owner[0]))
    requires claimedAt != [] ==> !IsSpace(claimedAt[|claimedAt| - 1])
    ensures Taken(owner + [':'] + (Text(pid) + [':'] + claimedAt) + ['\n'], host, probe)
      <==> owner != host || pid <= 0 || probe == Alive
  {
    StripText(owner + [':'] + (Text(pid) + [':'] + claimedAt));
    TextValue(pid);
    LegacyParts(owner, Text(pid), claimedAt);
    IntegerOfText(pid);
  }

  function After(file: Option<string>, ops: seq<Op>): Option<string> {
    if ops == [] then file else Apply(After(file, ops[..|ops| - 1]), ops[|ops| - 1])
  }

  /** The times that heartbeats write hold no bar, and the slot is not released by its host or by force. */
  predicate Keeps(op: Op, host: string) {
    match op
    case Claim(_, _, _, _, _) => true
    case Heartbeat(_, at, _, _) => '|' !in at
    case Release(h) => h != host
    case ForceRelease => false
  }

  lemma HolderStep(held: Info, op: Op)
    requires Printable(held) && held.host != "" && held.claimedAt != "" && held.deadline > 0 && Keeps(op, held.host)
    ensures Apply(Some(Print(held)), op)
      == Some(Print(if op.Heartbeat? && op.host == held.host then held.(heartbeat := op.at) else held))
  {
    match op
    case Claim(host, _, probe, _, _) => RecordIsTaken(held, host, probe);
    case Heartbeat(_, _, _, _) => ParsePrint(held);
    case Release(_) =>
      StripBody(held);
      SecondField(held);
  }

  /**
   Once claimed, a slot stays with its holder: any number of claims and heartbeats by anyone and releases by other hosts
   leave host, process, claim time and deadline as the claim wrote them.
   */
  lemma {:induction false} HolderStays(i: Info, ops: seq<Op>) returns (heartbeat: string)
    requires Printable(i) && i.host != "" && i.claimedAt != "" && i.deadline > 0
    requires forall k :: 0 <= k < |ops| ==> Keeps(ops[k], i.host)
    ensures '|' !in heartbeat && After(Some(Print(i)), ops) == Some(Print(i.(heartbeat := heartbeat)))
    ensures Parse(Print(i.(heartbeat := heartbeat))) == Some(i.(heartbeat := heartbeat))
  {
    heartbeat := i.heartbeat;
    if ops != [] {
      var last := ops[|ops| - 1];
      heartbeat := HolderStays(i, ops[..|ops| - 1]);
      HolderStep(i.(heartbeat := heartbeat), last);
      if last.Heartbeat? && last.host == i.host {
        heartbeat := last.at;
      }
    }
    ParsePrint(i.(heartbeat := heartbeat));
  }
}
