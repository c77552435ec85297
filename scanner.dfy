/** The balanced-delimiter scan three adapters run over page text (newsnow.ts, lines 22-47;
    waytoagi.ts, lines 18-43; aihot.ts, lines 41-64): a depth counter over one opening and
    one closing character, suspended inside double-quoted strings, where a backslash
    escapes the next character. The three loops differ only in the delimiters, the
    starting depth and what they do with the closing index, so they share this model. */
module Scanner {
  import opened Wrappers

  /** The loop's variables: `depth`, `inStr` and `esc`. */
  datatype ScanState = ScanState(depth: int, inStr: bool, esc: bool)

  /** The state a scan starts in: outside any string, at depth `depth`. */
  function Start(depth: int): ScanState {
    ScanState(depth, false, false)
  }

  /** One character of the loop body (the depth test that ends the loop is `Closes`). */
  function Step(st: ScanState, ch: char, open: char, close: char): ScanState {
    if st.inStr then
      if st.esc then st.(esc := false)
      else if ch == '\\' then st.(esc := true)
      else if ch == '"' then st.(inStr := false)
      else st
    else if ch == '"' then st.(inStr := true)
    else if ch == open then st.(depth := st.depth + 1)
    else if ch == close then st.(depth := st.depth - 1)
    else st
  }

  /** The character ends the scan: outside strings, a closing delimiter that takes the
      depth down to 0. */
  predicate Closes(st: ScanState, ch: char, open: char, close: char) {
    !st.inStr && ch != '"' && ch != open && ch == close && st.depth - 1 == 0
  }

  /** The state after scanning `t` from `st`. */
  function Run(t: string, st: ScanState, open: char, close: char): ScanState
    decreases |t|
  {
    if t == [] then st else Run(t[1..], Step(st, t[0], open, close), open, close)
  }

  /** Scanning `a + b` is scanning `a`, then `b`. */
  lemma {:induction false} RunAppend(a: string, b: string, st: ScanState, open: char, close: char)
    ensures Run(a + b, st, open, close) == Run(b, Run(a, st, open, close), open, close)
    decreases |a|
  {
    if a == [] {
      assert a + b == b;
    } else {
      assert (a + b)[0] == a[0] && (a + b)[1..] == a[1..] + b;
      RunAppend(a[1..], b, Step(st, a[0], open, close), open, close);
    }
  }

  /** Where the scan from index `i` in state `st` closes: the index of the closing
      character, or `None` when the text ends first. */
  function CloseFrom(s: string, i: nat, st: ScanState, open: char, close: char): (r: Option<nat>)
    ensures r.Some? ==> i <= r.value < |s| && s[r.value] == close
    decreases |s| - i
  {
    if i >= |s| then None
    else if Closes(st, s[i], open, close) then Some(i)
    else CloseFrom(s, i + 1, Step(st, s[i], open, close), open, close)
  }

  /** The scan closes at the first character that closes in the state reached by scanning
      the text before it, and finds nothing when no character does. */
  lemma {:induction false} CloseFromFirst(s: string, i: nat, st: ScanState, open: char, close: char)
    requires i <= |s|
    ensures match CloseFrom(s, i, st, open, close)
      case Some(e) =>
        Closes(Run(s[i..e], st, open, close), s[e], open, close)
        && forall j | i <= j < e :: !Closes(Run(s[i..j], st, open, close), s[j], open, close)
      case None =>
        forall j | i <= j < |s| :: !Closes(Run(s[i..j], st, open, close), s[j], open, close)
    decreases |s| - i
  {
    if i < |s| && !Closes(st, s[i], open, close) {
      var next := Step(st, s[i], open, close);
      CloseFromFirst(s, i + 1, next, open, close);
      forall j | i + 1 <= j <= |s| ensures Run(s[i..j], st, open, close) == Run(s[i + 1..j], next, open, close) {
        assert s[i..j][1..] == s[i + 1..j];
      }
      assert s[i..i] == [];
    } else if i < |s| {
      assert s[i..i] == [];
    }
  }

  /** Once inside the outermost delimiter (depth at least 1), the depth stays at least 1
      up to the closing character and the closing character brings it to 0: the text
      from `i` through the close is balanced. */
  lemma {:induction false} CloseFromBalanced(s: string, i: nat, st: ScanState, open: char, close: char)
    requires i <= |s| && st.depth >= 1
    requires CloseFrom(s, i, st, open, close).Some?
    ensures var e := CloseFrom(s, i, st, open, close).value;
      (forall j | i <= j <= e :: Run(s[i..j], st, open, close).depth >= 1)
      && Run(s[i..e + 1], st, open, close).depth == 0
    decreases |s| - i
  {
    var e := CloseFrom(s, i, st, open, close).value;
    if Closes(st, s[i], open, close) {
      assert s[i..i] == [];
      assert s[i..i + 1][1..] == [];
    } else {
      var next := Step(st, s[i], open, close);
      CloseFromBalanced(s, i + 1, next, open, close);
      forall j | i + 1 <= j <= |s| ensures Run(s[i..j], st, open, close) == Run(s[i + 1..j], next, open, close) {
        assert s[i..j][1..] == s[i + 1..j];
      }
      assert s[i..i] == [];
    }
  }

  /** A scan that starts on an opening delimiter outside any string stays at depth 1 or
      more until it closes, and the closing character brings the depth back to 0. */
  lemma CloseFromOpen(s: string, a: nat, open: char, close: char)
    requires a < |s| && s[a] == open && open != '"' && open != close
    requires CloseFrom(s, a, Start(0), open, close).Some?
    ensures var e := CloseFrom(s, a, Start(0), open, close).value;
      (forall j | a < j <= e :: Run(s[a..j], Start(0), open, close).depth >= 1)
      && Run(s[a..e + 1], Start(0), open, close).depth == 0
  {
    var st1 := Step(Start(0), open, open, close);
    assert !Closes(Start(0), open, open, close);
    assert CloseFrom(s, a, Start(0), open, close) == CloseFrom(s, a + 1, st1, open, close);
    CloseFromBalanced(s, a + 1, st1, open, close);
    forall j | a + 1 <= j <= |s| ensures Run(s[a..j], Start(0), open, close) == Run(s[a + 1..j], st1, open, close) {
      assert s[a..j][1..] == s[a + 1..j];
    }
  }

  /** The text of a string literal after its opening quote: characters other than a quote
      or a backslash, and backslashes each followed by any character. */
  predicate QuotedBody(b: string)
    decreases |b|
  {
    b == []
    || (b[0] != '"' && b[0] != '\\' && QuotedBody(b[1..]))
    || (|b| >= 2 && b[0] == '\\' && QuotedBody(b[2..]))
  }

  /** Inside a string, its body changes nothing: delimiters there do not count. */
  lemma {:induction false} QuotedBodyKeepsState(b: string, st: ScanState, open: char, close: char)
    requires st.inStr && !st.esc && QuotedBody(b)
    ensures Run(b, st, open, close) == st
    decreases |b|
  {
    if b != [] {
      if b[0] != '"' && b[0] != '\\' && QuotedBody(b[1..]) {
        QuotedBodyKeepsState(b[1..], st, open, close);
      } else {
        assert b[1..][1..] == b[2..];
        QuotedBodyKeepsState(b[2..], st, open, close);
      }
    }
  }

  /** A whole string literal, delimiters and escaped quotes included, leaves the depth and
      the rest of the state as they were. */
  lemma QuotedLiteralKeepsState(b: string, st: ScanState, open: char, close: char)
    requires !st.inStr && !st.esc && QuotedBody(b)
    ensures Run(['"'] + b + ['"'], st, open, close) == st
  {
    var inside := st.(inStr := true);
    RunAppend(['"'] + b, ['"'], st, open, close);
    RunAppend(['"'], b, st, open, close);
    assert Run(['"'], st, open, close) == inside by {
      assert ['"'][1..] == [];
    }
    QuotedBodyKeepsState(b, inside, open, close);
    assert ['"'][1..] == [];
  }

  /** The scanning loop, from index `from` at depth `depth0`: the index of the closing
      character, or `None` when the text ends first. */
  method ScanClose(s: string, from: nat, depth0: int, open: char, close: char) returns (end: Option<nat>)
    ensures end == CloseFrom(s, from, Start(depth0), open, close)
  {
    var depth := depth0;
    var inStr := false;
    var esc := false;
    var i := from;
    while i < |s|
      invariant from <= i
      invariant CloseFrom(s, from, Start(depth0), open, close)
        == CloseFrom(s, i, ScanState(depth, inStr, esc), open, close)
      decreases |s| - i
    {
      var ch := s[i];
      if inStr {
        if esc {
          esc := false;
        } else if ch == '\\' {
          esc := true;
        } else if ch == '"' {
          inStr := false;
        }
      } else if ch == '"' {
        inStr := true;
      } else if ch == open {
        depth := depth + 1;
      } else if ch == close {
        depth := depth - 1;
        if depth == 0 {
          return Some(i);
        }
      }
      i := i + 1;
    }
    return None;
  }
}
