/** The line-sharing classifier: the state of a line sums up who has accessed it and how. */
module SharePattern {
  import Counting
  import opened PageTable

  datatype Line = Untouched | Touched(owner: nat, state: PageState)

  datatype Access = Access(line: nat, tid: nat, cmd: Cmd)

  /** share_pattern on one line. */
  ghost function Seen(l: Line, tid: nat, cmd: Cmd): Line {
    match l
    case Untouched => Touched(tid, if cmd == Read then PrivateRead else PrivateWrite)
    case Touched(owner, PrivateRead) =>
      if tid == owner then (if cmd == Write then Touched(owner, PrivateWrite) else l)
      else Touched(owner, if cmd == Read then SharedRead else SharedWrite)
    case Touched(owner, PrivateWrite) => if tid != owner then Touched(owner, SharedWrite) else l
    case Touched(owner, SharedRead) => if cmd == Write then Touched(owner, SharedWrite) else l
    case Touched(owner, SharedWrite) => l
  }

  /** ---------------- the history of a line ---------------- */

  type History = seq<Access>

  ghost function Before(h: History): History
    requires h != []
  {
    h[..|h| - 1]
  }

  ghost function LineAfter(h: History): Line {
    if h == [] then Untouched else Seen(LineAfter(Before(h)), h[|h| - 1].tid, h[|h| - 1].cmd)
  }

  ghost predicate OneThread(h: History) { forall i :: 0 <= i < |h| ==> h[i].tid == h[0].tid }

  ghost predicate Wrote(h: History) { exists i :: 0 <= i < |h| && h[i].cmd == Write }

  /** One thread or several, some write or none. */
  ghost function Class(h: History): PageState {
    if OneThread(h) then (if Wrote(h) then PrivateWrite else PrivateRead)
    else if Wrote(h) then SharedWrite else SharedRead
  }

  lemma ClassStep(h: History)
    requires |h| > 1
    ensures OneThread(h) <==> OneThread(Before(h)) && h[|h| - 1].tid == h[0].tid
    ensures Wrote(h) <==> Wrote(Before(h)) || h[|h| - 1].cmd == Write
  {
    var g := Before(h);
    if OneThread(g) && h[|h| - 1].tid == h[0].tid {
      forall i | 0 <= i < |h| ensures h[i].tid == h[0].tid {
        if i < |g| { assert g[i].tid == g[0].tid; }
      }
    }
    if OneThread(h) {
      forall i | 0 <= i < |g| ensures g[i].tid == g[0].tid { assert h[i].tid == h[0].tid; }
    }
    if Wrote(g) {
      var i :| 0 <= i < |g| && g[i].cmd == Write;
      assert h[i].cmd == Write;
    }
    if Wrote(h) {
      var i :| 0 <= i < |h| && h[i].cmd == Write;
      if i < |g| { assert g[i].cmd == Write; }
    }
  }

  /** The state is an exact summary: whatever the history, it is the class of that history, and the
      owner is its first thread. */
  lemma {:induction false} ExactSummary(h: History)
    ensures LineAfter(h) == if h == [] then Untouched else Touched(h[0].tid, Class(h))
  {
    if |h| == 1 {
      assert Before(h) == [];
      if h[0].cmd == Write { assert Wrote(h); }
    } else if |h| > 1 {
      ExactSummary(Before(h));
      ClassStep(h);
    }
  }

  /** ---------------- all lines ---------------- */

  ghost function Only(h: History, line: nat): History {
    if h == [] then []
    else if h[|h| - 1].line == line then Only(Before(h), line) + [h[|h| - 1]]
    else Only(Before(h), line)
  }

  lemma OnlyStep(h: History, a: Access, line: nat)
    ensures Only(h + [a], line) == if a.line == line then Only(h, line) + [a] else Only(h, line)
    ensures a.line == line ==> LineAfter(Only(h + [a], line)) == Seen(LineAfter(Only(h, line)), a.tid, a.cmd)
  {
    assert Before(h + [a]) == h;
    if a.line == line { assert Before(Only(h, line) + [a]) == Only(h, line); }
  }

  ghost function IsIn(l: Line, state: PageState): nat { Counting.One(l.Touched? && l.state == state) }

  ghost function InState(state: PageState): Line -> bool { (l: Line) => l.Touched? && l.state == state }

  ghost function CountIn(lines: seq<Line>, state: PageState): nat { Counting.Count(lines, InState(state)) }

  lemma CountsSet(lines: seq<Line>, k: nat, l: Line, lines': seq<Line>)
    requires k < |lines| && lines' == lines[k := l]
    ensures forall state :: CountIn(lines', state) == CountIn(lines, state) - IsIn(lines[k], state) + IsIn(l, state)
  {
    forall state ensures CountIn(lines', state) == CountIn(lines, state) - IsIn(lines[k], state) + IsIn(l, state) {
      Counting.CountSet(lines, k, l, InState(state));
    }
  }

  lemma SummariesStep(before: seq<Line>, h: History, a: Access, after: seq<Line>)
    requires forall i :: 0 <= i < |before| ==> before[i] == LineAfter(Only(h, i))
    requires a.line < |before| && after == before[a.line := Seen(before[a.line], a.tid, a.cmd)]
    ensures forall i :: 0 <= i < |after| ==> after[i] == LineAfter(Only(h + [a], i))
    ensures var g := Only(h + [a], a.line); g != [] && after[a.line] == Touched(g[0].tid, Class(g))
  {
    forall i | 0 <= i < |after| ensures after[i] == LineAfter(Only(h + [a], i)) {
      OnlyStep(h, a, i);
    }
    OnlyStep(h, a, a.line);
    ExactSummary(Only(h + [a], a.line));
  }

  class Classifier {
    const lines: array<Line>
    var pr: int
    var pw: int
    var sr: int
    var sw: int
    var total: int
    ghost var history: History

    /** Each counter is the number of lines in its state, and they add up to the lines touched. */
    ghost predicate Counted()
      reads this, lines
    {
      && pr == CountIn(lines[..], PrivateRead) && pw == CountIn(lines[..], PrivateWrite)
      && sr == CountIn(lines[..], SharedRead) && sw == CountIn(lines[..], SharedWrite)
      && pr + pw + sr + sw == total
    }

    /** Each line holds the summary of its own accesses. */
    ghost predicate Summarises()
      reads this, lines
    {
      forall i :: 0 <= i < lines.Length ==> lines[i] == LineAfter(Only(history, i))
    }

    constructor (n: nat)
      ensures Counted() && Summarises() && history == [] && lines.Length == n && fresh(lines)
    {
      lines := new Line[n](_ => Untouched);
      pr, pw, sr, sw, total := 0, 0, 0, 0, 0;
      history := [];
      new;
      forall state ensures CountIn(lines[..], state) == 0 { Counting.CountZero(lines[..], InState(state)); }
    }

    /** share_pattern */
    method Update(line: nat, tid: nat, cmd: Cmd)
      requires line < lines.Length
      modifies this`pr, this`pw, this`sr, this`sw, this`total, lines
      ensures lines[..] == old(lines[..])[line := Seen(old(lines[line]), tid, cmd)]
      ensures pr == old(pr) - IsIn(old(lines[line]), PrivateRead) + IsIn(lines[line], PrivateRead)
      ensures pw == old(pw) - IsIn(old(lines[line]), PrivateWrite) + IsIn(lines[line], PrivateWrite)
      ensures sr == old(sr) - IsIn(old(lines[line]), SharedRead) + IsIn(lines[line], SharedRead)
      ensures sw == old(sw) - IsIn(old(lines[line]), SharedWrite) + IsIn(lines[line], SharedWrite)
      ensures total == old(total) + if old(lines[line]) == Untouched then 1 else 0
    {
      match lines[line] {
        case Untouched =>
          lines[line] := Touched(tid, if cmd == Read then PrivateRead else PrivateWrite);
          total := total + 1;
          if cmd == Read { pr := pr + 1; } else { pw := pw + 1; }
        case Touched(owner, PrivateRead) =>
          if tid == owner {
            if cmd == Write {
              lines[line] := Touched(owner, PrivateWrite);
              pr := pr - 1;
              pw := pw + 1;
            }
          } else if cmd == Read {
            lines[line] := Touched(owner, SharedRead);
            pr := pr - 1;
            sr := sr + 1;
          } else {
            lines[line] := Touched(owner, SharedWrite);
            pr := pr - 1;
            sw := sw + 1;
          }
        case Touched(owner, PrivateWrite) =>
          if tid != owner {
            lines[line] := Touched(owner, SharedWrite);
            pw := pw - 1;
            sw := sw + 1;
          }
        case Touched(owner, SharedRead) =>
          if cmd == Write {
            lines[line] := Touched(owner, SharedWrite);
            sr := sr - 1;
            sw := sw + 1;
          }
        case Touched(_, SharedWrite) =>
      }
    }

    /** One access: the counters stay counts, and the line's state is the class of all its accesses. */
    method Classify(line: nat, tid: nat, cmd: Cmd)
      requires Counted() && Summarises() && line < lines.Length
      modifies this, lines
      ensures Counted() && Summarises() && history == old(history) + [Access(line, tid, cmd)]
      ensures var h := Only(history, line); h != [] && lines[line] == Touched(h[0].tid, Class(h))
    {
      ghost var before, h := lines[..], history;
      assert forall i :: 0 <= i < |before| ==> before[i] == LineAfter(Only(h, i));
      Update(line, tid, cmd);
      CountsSet(before, line, lines[line], lines[..]);
      history := h + [Access(line, tid, cmd)];
      SummariesStep(before, h, Access(line, tid, cmd), lines[..]);
    }
  }
}
