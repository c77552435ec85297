/** The few regular expressions the feed adapters run over XML text, written out as
    leftmost-match searches: `open[\s\S]*?close` (a lazy block, alone or with the `g` flag)
    and `open([c]+)close` / `open([c]*)close` (a captured run of one character class). */
module Markup {
  import opened Wrappers
  import opened Strings

  // ----- lazy blocks: open[\s\S]*?close -----

  /** A match of a lazy block: where the opening text starts and where the closing text
      starts. */
  datatype Span = Span(start: nat, close: nat)

  /** `m` is a match in `s`: the opening text at `start`, the closing text at `close`, and
      (the gap being lazy) no closing text anywhere in between. */
  predicate IsLazy(s: string, open: string, close: string, m: Span) {
    OccursAt(s, open, m.start) && m.start + |open| <= m.close
    && OccursAt(s, close, m.close)
    && forall j | m.start + |open| <= j < m.close :: !OccursAt(s, close, j)
  }

  /** The match starting exactly at `i`, if there is one. */
  function LazyAt(s: string, open: string, close: string, i: nat): (r: Option<Span>)
    ensures r.Some? ==> r.value.start == i && IsLazy(s, open, close, r.value)
    ensures r.None? ==> !OccursAt(s, open, i) || forall j | i + |open| <= j :: !OccursAt(s, close, j)
  {
    if !OccursAt(s, open, i) then None
    else
      var e := IndexOfFrom(s, close, i + |open|);
      if e < 0 then None else Some(Span(i, e))
  }

  /** The leftmost match starting at or after `p`. */
  function NextLazy(s: string, open: string, close: string, p: nat): (r: Option<Span>)
    ensures r.Some? ==> p <= r.value.start && IsLazy(s, open, close, r.value)
    ensures r.Some? ==> forall i | p <= i < r.value.start :: LazyAt(s, open, close, i).None?
    ensures r.None? ==> forall i | p <= i :: LazyAt(s, open, close, i).None?
    decreases |s| - p
  {
    if p + |open| > |s| then None
    else match LazyAt(s, open, close, p)
      case Some(m) => Some(m)
      case None => NextLazy(s, open, close, p + 1)
  }

  /** `s.matchAll(/open[\s\S]*?close/g)` from index `p`: the matches left to right, each
      search going on after the end of the previous match. */
  function LazyMatches(s: string, open: string, close: string, p: nat): (r: seq<Span>)
    requires open != []
    ensures forall k | 0 <= k < |r| :: IsLazy(s, open, close, r[k]) && p <= r[k].start
    ensures forall k | 0 <= k < |r| - 1 :: r[k].close + |close| <= r[k + 1].start
    decreases |s| - p
  {
    match NextLazy(s, open, close, p)
    case None => []
    case Some(m) => [m] + LazyMatches(s, open, close, m.close + |close|)
  }

  /** The text of a match (`match[0]`). */
  function Whole(s: string, open: string, close: string, m: Span): string
    requires IsLazy(s, open, close, m)
  {
    s[m.start..m.close + |close|]
  }

  /** The text between the opening and the closing text. */
  function Between(s: string, open: string, close: string, m: Span): string
    requires IsLazy(s, open, close, m)
  {
    s[m.start + |open|..m.close]
  }

  /** The texts of all matches, in order. */
  function Blocks(s: string, open: string, close: string): (r: seq<string>)
    requires open != []
    ensures |r| == |LazyMatches(s, open, close, 0)|
  {
    var ms := LazyMatches(s, open, close, 0);
    seq(|ms|, k requires 0 <= k < |ms| => Whole(s, open, close, ms[k]))
  }

  /** `s.match(/open([\s\S]*?)close/)?.[1]`: the gap of the leftmost match. */
  function LazyCapture(s: string, open: string, close: string): Option<string> {
    match NextLazy(s, open, close, 0)
    case None => None
    case Some(m) => Some(Between(s, open, close, m))
  }

  /** A block's text starts with the opening text, ends with the closing text, and holds
      the closing text nowhere else after the opening. */
  lemma {:induction false} BlockShape(s: string, open: string, close: string, m: Span)
    requires IsLazy(s, open, close, m)
    ensures var b := Whole(s, open, close, m);
      StartsWith(b, open) && EndsWith(b, close)
      && IndexOfFrom(b, close, |open|) == |b| - |close|
  {
    var b := Whole(s, open, close, m);
    var e := m.close - m.start;
    assert forall k | 0 <= k < |b| :: b[k] == s[m.start + k];
    assert b[..|open|] == s[m.start..m.start + |open|];
    assert b[e..e + |close|] == s[m.close..m.close + |close|];
    assert b[|b| - |close|..] == b[e..e + |close|];
    forall j | |open| <= j < e ensures !OccursAt(b, close, j) {
      if j + |close| <= |b| {
        assert b[j..j + |close|] == s[m.start + j..m.start + j + |close|];
        assert !OccursAt(s, close, m.start + j);
      }
    }
    assert OccursAt(b, close, e);
    IndexOfFromFinds(b, close, |open|, e);
  }

  /** The search finds the first occurrence at or after `from`. */
  lemma IndexOfFromFinds(s: string, pat: string, from: nat, e: nat)
    requires from <= e && OccursAt(s, pat, e)
    requires forall j | from <= j < e :: !OccursAt(s, pat, j)
    ensures IndexOfFrom(s, pat, from) == e
  {
  }

  // ----- captured runs: open([c]+)close and open([c]*)close -----

  /** The maximal run of class characters after an opening text at `i`, when it is at
      least `least` long and the closing text follows it. When the closing text starts
      with a character outside the class, this is the regular expression's match at `i`:
      the run cannot stop early, as the next character would have to open the closing
      text (`ClassAtMeaning`). */
  function ClassAt(s: string, open: string, close: string, cls: char -> bool, least: nat, i: nat): (r: Option<string>)
    ensures r.Some? ==> |r.value| >= least && forall k | 0 <= k < |r.value| :: cls(r.value[k])
  {
    if !OccursAt(s, open, i) then None
    else
      var b := i + |open|;
      var e := RunEnd(s, b, cls);
      if e - b >= least && OccursAt(s, close, e) then Some(s[b..e]) else None
  }

  /** A match at `i` is an opening text, a group of class characters at least `least`
      long, and the closing text right after it. */
  lemma {:induction false} ClassAtMeaning(s: string, open: string, close: string, cls: char -> bool, least: nat,
                                          i: nat, c: string)
    requires close != [] && !cls(close[0])
    ensures ClassAt(s, open, close, cls, least, i) == Some(c) <==>
      OccursAt(s, open, i) && |c| >= least && (forall k | 0 <= k < |c| :: cls(c[k]))
      && OccursAt(s, c, i + |open|) && OccursAt(s, close, i + |open| + |c|)
  {
    if OccursAt(s, open, i) && |c| >= least && (forall k | 0 <= k < |c| :: cls(c[k]))
       && OccursAt(s, c, i + |open|) && OccursAt(s, close, i + |open| + |c|) {
      var b := i + |open|;
      forall k | b <= k < b + |c| ensures cls(s[k]) {
        assert s[k] == s[b..b + |c|][k - b] == c[k - b];
      }
      assert s[b + |c|] == s[b + |c|..b + |c| + |close|][0] == close[0];
      RunEndAt(s, b, cls, b + |c|);
    }
  }

  /** The run ends at the first character outside the class. */
  lemma {:induction false} RunEndAt(s: string, b: nat, cls: char -> bool, e: nat)
    requires b <= e < |s| && !cls(s[e])
    requires forall k | b <= k < e :: cls(s[k])
    ensures RunEnd(s, b, cls) == e
    decreases e - b
  {
    if b < e {
      RunEndAt(s, b + 1, cls, e);
    }
  }

  /** The leftmost index at or after `p` with a match. */
  function NextClass(s: string, open: string, close: string, cls: char -> bool, least: nat, p: nat): (r: Option<nat>)
    ensures r.Some? ==> p <= r.value && ClassAt(s, open, close, cls, least, r.value).Some?
    ensures r.Some? ==> forall i | p <= i < r.value :: ClassAt(s, open, close, cls, least, i).None?
    ensures r.None? ==> forall i | p <= i :: ClassAt(s, open, close, cls, least, i).None?
    decreases |s| - p
  {
    if p + |open| > |s| then None
    else if ClassAt(s, open, close, cls, least, p).Some? then Some(p)
    else NextClass(s, open, close, cls, least, p + 1)
  }

  /** No index from `p` on matches, so the search finds nothing. */
  lemma {:induction false} NextClassNone(s: string, open: string, close: string, cls: char -> bool, least: nat, p: nat)
    requires forall i | p <= i :: ClassAt(s, open, close, cls, least, i).None?
    ensures NextClass(s, open, close, cls, least, p).None?
    decreases |s| - p
  {
    if p + |open| <= |s| {
      NextClassNone(s, open, close, cls, least, p + 1);
    }
  }

  /** `s.match(/open([c]+)close/)?.[1]` (`least` 1) or with `*` (`least` 0), from index `p`. */
  function ClassCaptureFrom(s: string, open: string, close: string, cls: char -> bool, least: nat, p: nat)
    : (r: Option<string>)
    ensures r.Some? ==> |r.value| >= least && forall k | 0 <= k < |r.value| :: cls(r.value[k])
  {
    match NextClass(s, open, close, cls, least, p)
    case None => None
    case Some(i) => ClassAt(s, open, close, cls, least, i)
  }

  function ClassCapture(s: string, open: string, close: string, cls: char -> bool, least: nat): (r: Option<string>)
    ensures r.Some? ==> |r.value| >= least && forall k | 0 <= k < |r.value| :: cls(r.value[k])
  {
    ClassCaptureFrom(s, open, close, cls, least, 0)
  }

  /** `[^<]` */
  function NotLt(): char -> bool {
    c => c != '<'
  }

  /** `[^"]` */
  function NotQuote(): char -> bool {
    c => c != '"'
  }

  /** `\d` */
  function Digit(): char -> bool {
    c => IsDigit(c)
  }

  /** A text without `<` between an opening and a closing tag is what the tag capture
      reads back. */
  lemma {:induction false} TagCaptureReadsBack(open: string, c: string, close: string, rest: string)
    requires close != [] && close[0] == '<' && c != [] && forall k | 0 <= k < |c| :: c[k] != '<'
    ensures ClassCapture(open + c + close + rest, open, close, NotLt(), 1) == Some(c)
  {
    var s := open + c + close + rest;
    assert s[..|open|] == open;
    assert s[0..0 + |open|] == open;
    ClassAtMeaning(s, open, close, NotLt(), 1, 0, c);
    assert s[|open|..|open| + |c|] == c;
    assert s[|open| + |c|..|open| + |c| + |close|] == close;
  }
}
