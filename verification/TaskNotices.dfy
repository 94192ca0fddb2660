/** Taking a background task's notification apart (app/_lib/subagent-sessions.ts:64-88). */
module TaskNotices {
  import opened Wrappers

  datatype Status = Complete | Failed | Cancelled

  const PREFIX := "Background task "

  predicate Space(c: char) {
    '\t' <= c <= '\r' || c == ' ' || c == '\U{00a0}' || c == '\U{1680}' || '\U{2000}' <= c <= '\U{200a}'
    || c in {'\U{2028}', '\U{2029}', '\U{202f}', '\U{205f}', '\U{3000}', '\U{feff}'}
  }

  predicate NewLine(c: char) { c == '\r' || c == '\n' }

  function Closing(status: Status): string {
    match status
    case Complete => ") is completed."
    case Failed => ") failed."
    case Cancelled => ") is cancelled."
  }

  function ClosingOf(s: string): Option<Status> {
    if Closing(Complete) <= s then Some(Complete)
    else if Closing(Failed) <= s then Some(Failed)
    else if Closing(Cancelled) <= s then Some(Cancelled)
    else None
  }

  /** How long the word at the start of `s` is. */
  function Word(s: string): nat { if s == "" || Space(s[0]) then 0 else 1 + Word(s[1..]) }

  /** How long the line at the start of `s` is. */
  function Line(s: string): nat { if s == "" || NewLine(s[0]) then 0 else 1 + Line(s[1..]) }

  /** The longest description of at most `n` characters that a closing follows: a greedy match backs off from its end. */
  function Longest(s: string, n: int): int
    requires n <= |s|
    decreases n
  {
    if n <= 0 then 0 else if ClosingOf(s[n..]).Some? then n else Longest(s, n - 1)
  }

  /** The regular expression of line 73 after its prefix: task id and status. */
  function Notice(rest: string): Option<(string, Status)> {
    var k := Word(rest);
    if k == 0 || |rest| < k + 2 || rest[k] != ' ' || rest[k + 1] != '(' then None
    else
      var tail := rest[k + 2..];
      var d := Longest(tail, if Line(tail) <= |tail| then Line(tail) else |tail|);
      if 0 < d <= |tail| && ClosingOf(tail[d..]).Some? then Some((rest[..k], ClosingOf(tail[d..]).value)) else None
  }

  function Notification(message: string): Option<(string, Status)> {
    if PREFIX <= message then Notice(message[|PREFIX|..]) else None
  }

  // ---------------------------------------------------------------- what it recognises

  predicate IsWord(id: string) { id != "" && forall i | 0 <= i < |id| :: !Space(id[i]) }

  predicate OneLine(s: string) { forall i | 0 <= i < |s| :: !NewLine(s[i]) }

  function Written(id: string, description: string, status: Status): string {
    PREFIX + (id + (" (" + (description + Closing(status))))
  }

  /** On its first line, the tail closes after `d` characters and nowhere later. */
  predicate LastCloses(tail: string, d: nat) {
    && 0 < d <= |tail| && d <= Line(tail) <= |tail| && ClosingOf(tail[d..]).Some?
    && forall e | d < e <= Line(tail) :: ClosingOf(tail[e..]).None?
  }

  lemma {:induction false} WordIs(s: string, k: nat)
    ensures Word(s) == k <==> k <= |s| && (forall i | 0 <= i < k :: !Space(s[i])) && (k < |s| ==> Space(s[k]))
    decreases |s|
  {
    if s != "" && k > 0 {
      WordIs(s[1..], k - 1);
    }
  }

  lemma {:induction false} LineIs(s: string)
    ensures Line(s) <= |s| && (forall i | 0 <= i < Line(s) :: !NewLine(s[i])) && (Line(s) < |s| ==> NewLine(s[Line(s)]))
    decreases |s|
  {
    if s != "" && !NewLine(s[0]) {
      LineIs(s[1..]);
      assert forall i | 0 < i < |s| :: s[i] == s[1..][i - 1];
    }
  }

  lemma {:induction false} LongestIs(s: string, n: nat, d: nat)
    requires 0 < d <= n <= |s| && ClosingOf(s[d..]).Some? && forall e | d < e <= n :: ClosingOf(s[e..]).None?
    ensures Longest(s, n) == d
    decreases n
  {
    if n > d {
      LongestIs(s, n - 1, d);
    }
  }

  lemma {:induction false} LongestFacts(s: string, n: nat)
    requires n <= |s|
    ensures 0 <= Longest(s, n) <= n && forall e | Longest(s, n) < e <= n :: ClosingOf(s[e..]).None?
    decreases n
  {
    if n > 0 && ClosingOf(s[n..]).None? {
      LongestFacts(s, n - 1);
      var d := Longest(s, n - 1);
      forall e | d < e <= n ensures ClosingOf(s[e..]).None? {
        if e == n {
          assert s[e..] == s[n..];
        }
      }
    }
  }

  lemma ClosingReads(status: Status, further: string)
    ensures ClosingOf(Closing(status) + further) == Some(status)
  {
    var s := Closing(status) + further;
    assert Closing(status) <= s;
    assert s[2] == Closing(status)[2] && s[6] == Closing(status)[6];
    assert Closing(Complete)[2] == 'i' && Closing(Cancelled)[2] == 'i' && Closing(Failed)[2] == 'f';
    assert Closing(Complete)[6] == 'o' && Closing(Cancelled)[6] == 'a';
  }

  lemma ClosingStarts(s: string)
    requires ClosingOf(s).Some?
    ensures s != "" && s[0] == ')' && Closing(ClosingOf(s).value) <= s
  {
  }

  /** What follows the id decides alone, and only by its last closing. */
  lemma TailDecides(tail: string, d: nat)
    requires LastCloses(tail, d)
    ensures Longest(tail, if Line(tail) <= |tail| then Line(tail) else |tail|) == d
  {
    LongestIs(tail, Line(tail), d);
  }

  lemma RestParts(id: string, tail: string)
    requires IsWord(id)
    ensures var rest := id + (" (" + tail);
            && Word(rest) == |id| && |rest| >= |id| + 2 && rest[|id|] == ' ' && rest[|id| + 1] == '('
            && rest[..|id|] == id && rest[|id| + 2..] == tail
  {
    var rest := id + (" (" + tail);
    assert forall i | 0 <= i < |id| :: rest[i] == id[i];
    assert rest[|id|] == ' ';
    WordIs(rest, |id|);
  }

  lemma NoticeAt(id: string, tail: string, d: nat)
    requires IsWord(id) && LastCloses(tail, d)
    ensures Notice(id + (" (" + tail)) == Some((id, ClosingOf(tail[d..]).value))
  {
    RestParts(id, tail);
    TailDecides(tail, d);
  }

  lemma WrittenParts(id: string, description: string, status: Status, further: string)
    ensures var message := Written(id, description, status) + further;
            PREFIX <= message && message[|PREFIX|..] == id + (" (" + (description + (Closing(status) + further)))
  {
    var message := Written(id, description, status) + further;
    assert message == PREFIX + (id + (" (" + (description + (Closing(status) + further))));
  }

  /** A notification is read as it was written, unless a longer description on the same line is closed too. */
  lemma WrittenIsNotified(id: string, description: string, status: Status, further: string)
    requires IsWord(id) && LastCloses(description + (Closing(status) + further), |description|)
    ensures Notification(Written(id, description, status) + further) == Some((id, status))
  {
    var tail := description + (Closing(status) + further);
    WrittenParts(id, description, status, further);
    assert tail[|description|..] == Closing(status) + further;
    ClosingReads(status, further);
    NoticeAt(id, tail, |description|);
  }

  lemma ClosesOnce(status: Status)
    ensures forall k | 0 < k < |Closing(status)| :: Closing(status)[k] != ')'
    ensures OneLine(Closing(status))
  {
  }

  /** A closing that ends its line is the last one on it. */
  lemma EndOfLineCloses(description: string, status: Status, further: string)
    requires description != "" && OneLine(description) && (further == "" || NewLine(further[0]))
    ensures LastCloses(description + (Closing(status) + further), |description|)
  {
    var tail := description + (Closing(status) + further);
    var d, end := |description|, |description| + |Closing(status)|;
    LineIs(tail);
    ClosesOnce(status);
    ClosingReads(status, further);
    assert tail[d..] == Closing(status) + further;
    assert forall i | 0 <= i < d :: tail[i] == description[i];
    assert forall i | d <= i < end :: tail[i] == Closing(status)[i - d];
    assert end < |tail| ==> tail[end] == further[0];
    assert Line(tail) == end;
    forall e | d < e <= end ensures ClosingOf(tail[e..]).None? {
      NoClosingAt(tail, e);
    }
  }

  lemma NoClosingAt(s: string, e: nat)
    requires e <= |s| && (e < |s| ==> s[e] != ')')
    ensures ClosingOf(s[e..]).None?
  {
    if ClosingOf(s[e..]).Some? {
      ClosingStarts(s[e..]);
    }
  }

  /** In particular, whatever the description says, when nothing else follows on its line. */
  lemma WrittenLineIsNotified(id: string, description: string, status: Status, further: string)
    requires IsWord(id) && description != "" && OneLine(description)
    requires further == "" || NewLine(further[0])
    ensures Notification(Written(id, description, status) + further) == Some((id, status))
  {
    EndOfLineCloses(description, status, further);
    WrittenIsNotified(id, description, status, further);
  }

  /** What the pieces of a recognised rest are. */
  lemma NoticeParts(rest: string) returns (tail: string, d: nat)
    requires Notice(rest).Some?
    ensures var (id, status) := Notice(rest).value;
            && IsWord(id) && rest == id + (" (" + tail) && LastCloses(tail, d) && ClosingOf(tail[d..]) == Some(status)
  {
    var k := Word(rest);
    tail := rest[k + 2..];
    WordIs(rest, k);
    LineIs(tail);
    LongestFacts(tail, Line(tail));
    d := Longest(tail, Line(tail));
    PiecesOf(rest, k);
  }

  lemma PiecesOf(rest: string, k: nat)
    requires k + 2 <= |rest| && rest[k] == ' ' && rest[k + 1] == '('
    ensures rest == rest[..k] + (" (" + rest[k + 2..])
  {
  }

  lemma ClosedTail(tail: string, d: nat) returns (further: string)
    requires d <= |tail| && ClosingOf(tail[d..]).Some?
    ensures tail == tail[..d] + (Closing(ClosingOf(tail[d..]).value) + further)
  {
    var closing := Closing(ClosingOf(tail[d..]).value);
    ClosingStarts(tail[d..]);
    further := tail[d..][|closing|..];
    assert tail[d..] == closing + further;
  }

  /** Whatever is recognised was written so, with its longest description. */
  lemma NotifiedWasWritten(message: string) returns (description: string, further: string)
    requires Notification(message).Some?
    ensures var (id, status) := Notification(message).value;
            && IsWord(id) && LastCloses(description + (Closing(status) + further), |description|)
            && message == Written(id, description, status) + further
  {
    var (id, status) := Notification(message).value;
    var tail, d := NoticeParts(message[|PREFIX|..]);
    further := ClosedTail(tail, d);
    description := tail[..d];
    WrittenParts(id, description, status, further);
    assert message == PREFIX + message[|PREFIX|..];
  }
}
