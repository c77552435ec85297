/** Text predicates and clean-ups shared by the fetchers, the relevance filter and the
    translator (`src/utils/text.ts`). Regular expressions become explicit scans. */
module Text {
  import opened Wrappers
  import opened Strings

  /** A character of the CJK Unified Ideographs block, U+4E00 to U+9FFF. */
  predicate IsCjk(c: char) {
    '\U{4E00}' <= c <= '\U{9FFF}'
  }

  /** `/[一-鿿]/.test(s)` */
  function HasCjk(s: string): (r: bool)
    ensures r <==> exists i | 0 <= i < |s| :: IsCjk(s[i])
    decreases |s|
  {
    if s == [] then false
    else if IsCjk(s[0]) then true
    else
      var rest := HasCjk(s[1..]);
      assert forall i | 1 <= i < |s| :: s[i] == s[1..][i - 1];
      rest
  }

  /** Number of ASCII letters (`s.match(/[A-Za-z]/g).length`). */
  function LetterCount(s: string): (n: nat)
    ensures n <= |s|
    decreases |s|
  {
    if s == [] then 0 else LetterCount(s[..|s| - 1]) + (if IsAsciiLetter(s[|s| - 1]) then 1 else 0)
  }

  /** `isMostlyEnglish`: a non-blank, CJK-free text whose ASCII letters number at least
      six AND at least a quarter of its (UTF-16) length, both measured after trimming. */
  function IsMostlyEnglish(text: string): (r: bool)
    ensures r <==> var s := Trim(text);
      s != [] && !HasCjk(s) && LetterCount(s) >= 6 && LetterCount(s) >= Utf16Length(s) / 4
  {
    var s := Trim(text);
    if s == [] then false
    else if HasCjk(s) then false
    else LetterCount(s) >= (if 6 > Utf16Length(s) / 4 then 6 else Utf16Length(s) / 4)
  }

  /** Padding a text with white space does not change whether it reads as English. */
  lemma MostlyEnglishIgnoresPadding(ws1: string, s: string, ws2: string)
    requires AllSpace(ws1) && AllSpace(ws2)
    ensures IsMostlyEnglish(ws1 + s + ws2) == IsMostlyEnglish(s)
  {
    TrimIgnoresPadding(ws1, s, ws2);
  }

  /** No part of a text has more ASCII letters than the whole. */
  lemma {:induction false} LetterCountOfInfix(s: string, i: nat, j: nat)
    requires i <= j <= |s|
    ensures LetterCount(s[i..j]) <= LetterCount(s)
    decreases |s|
  {
    if j < |s| {
      assert s[..|s| - 1][i..j] == s[i..j];
      LetterCountOfInfix(s[..|s| - 1], i, j);
    } else if i > 0 {
      var t := s[1..];
      assert s[i..j] == t[i - 1..j - 1] by {
        assert forall k | 0 <= k < j - i :: s[i..j][k] == s[i + k] == t[i - 1 + k];
      }
      LetterCountOfInfix(t, i - 1, j - 1);
      LetterCountOfSuffix(s);
    } else {
      assert s[i..j] == s;
    }
  }

  lemma {:induction false} LetterCountOfSuffix(s: string)
    requires s != []
    ensures LetterCount(s[1..]) <= LetterCount(s)
    decreases |s|
  {
    if |s| > 1 {
      assert s[1..][..|s[1..]| - 1] == s[..|s| - 1][1..];
      LetterCountOfSuffix(s[..|s| - 1]);
    }
  }

  lemma TrimLetterCount(text: string)
    ensures LetterCount(Trim(text)) <= LetterCount(text)
  {
    var a := TrimStart(text);
    TrimStartIsSuffix(text);
    assert a == text[|text| - |a|..|text|];
    LetterCountOfInfix(text, |text| - |a|, |text|);
    var s := TrimEnd(a);
    assert s == a[0..|s|];
    LetterCountOfInfix(a, 0, |s|);
  }

  /** A text of fewer than six ASCII letters is never mostly English. */
  lemma FewLettersNotEnglish(text: string)
    requires LetterCount(text) < 6
    ensures !IsMostlyEnglish(text)
  {
    TrimLetterCount(text);
  }

  /** JavaScript truthiness of an optional string: present and non-empty. */
  predicate Present(s: Option<string>) {
    s.Some? && s.value != []
  }

  /** `s || fallback` for an optional string. */
  function OrText(s: Option<string>, fallback: string): string {
    if Present(s) then s.value else fallback
  }

  predicate Blank(v: Option<string>) {
    v.None? || Trim(v.value) == []
  }

  /** Index of the first present value whose trim is non-empty, or `|values|`. */
  function FirstNonEmptyIndex(values: seq<Option<string>>): (k: nat)
    ensures k <= |values|
    ensures forall j | 0 <= j < k :: Blank(values[j])
    ensures k < |values| ==> !Blank(values[k])
    decreases |values|
  {
    if values == [] then 0
    else if !Blank(values[0]) then 0
    else 1 + FirstNonEmptyIndex(values[1..])
  }

  /** `firstNonEmpty(...values)`: the first present value whose trim is non-empty, trimmed;
      "" when there is none. (The source stringifies each value first; the model is given
      the strings.) */
  function FirstNonEmpty(values: seq<Option<string>>): (r: string)
    ensures r == [] <==> forall i | 0 <= i < |values| :: Blank(values[i])
    ensures r != [] ==> exists i | 0 <= i < |values| ::
      values[i].Some? && r == Trim(values[i].value) && forall j | 0 <= j < i :: Blank(values[j])
  {
    var k := FirstNonEmptyIndex(values);
    if k < |values| then Trim(values[k].value) else ""
  }

  /** `s.replace(/\s+/g, ' ')`: every maximal run of white space becomes one space. */
  function CollapseSpace(s: string): (r: string)
    ensures s == [] <==> r == []
    ensures s != [] && !IsSpace(s[0]) ==> r[0] == s[0]
    ensures s != [] && IsSpace(s[0]) ==> r[0] == ' '
    ensures forall i | 0 <= i < |r| :: IsSpace(r[i]) ==> r[i] == ' '
    ensures forall i | 0 <= i < |r| - 1 :: !(r[i] == ' ' && r[i + 1] == ' ')
    decreases |s|
  {
    if s == [] then []
    else if IsSpace(s[0]) then
      var j := RunEnd(s, 0, IsSpace);
      var rest := CollapseSpace(s[j..]);
      assert rest != [] ==> rest[0] == s[j] && !IsSpace(s[j]);
      " " + rest
    else
      [s[0]] + CollapseSpace(s[1..])
  }

  /** Every white-space character is a plain space, and no two spaces are adjacent. */
  predicate SingleSpaced(s: string) {
    (forall i | 0 <= i < |s| :: IsSpace(s[i]) ==> s[i] == ' ')
    && (forall i | 0 <= i < |s| - 1 :: !(s[i] == ' ' && s[i + 1] == ' '))
  }

  lemma InfixSingleSpaced(s: string, i: nat, j: nat)
    requires SingleSpaced(s) && i <= j <= |s|
    ensures SingleSpaced(s[i..j])
  {
    var t := s[i..j];
    forall k | 0 <= k < |t| - 1 ensures !(t[k] == ' ' && t[k + 1] == ' ') {
      assert t[k] == s[i + k] && t[k + 1] == s[i + k + 1];
    }
  }

  /** The characters of `s` that are not white space, in order. */
  function NonSpace(s: string): string
    decreases |s|
  {
    if s == [] then [] else (if IsSpace(s[0]) then [] else [s[0]]) + NonSpace(s[1..])
  }

  lemma {:induction false} NonSpaceAppend(a: string, b: string)
    ensures NonSpace(a + b) == NonSpace(a) + NonSpace(b)
    decreases |a|
  {
    if a == [] {
      assert a + b == b;
    } else {
      var h := if IsSpace(a[0]) then [] else [a[0]];
      assert (a + b)[0] == a[0];
      assert (a + b)[1..] == a[1..] + b;
      NonSpaceAppend(a[1..], b);
      assert NonSpace(a + b) == h + (NonSpace(a[1..]) + NonSpace(b));
      assert NonSpace(a) == h + NonSpace(a[1..]);
    }
  }

  lemma {:induction false} NonSpaceOfSpace(w: string)
    requires AllSpace(w)
    ensures NonSpace(w) == []
    decreases |w|
  {
    if w != [] {
      NonSpaceOfSpace(w[1..]);
    }
  }

  /** White space before `j` contributes nothing. */
  lemma NonSpaceSkipsRun(s: string, j: nat)
    requires j <= |s| && AllSpace(s[..j])
    ensures NonSpace(s) == NonSpace(s[j..])
  {
    assert s == s[..j] + s[j..];
    NonSpaceAppend(s[..j], s[j..]);
    NonSpaceOfSpace(s[..j]);
  }

  /** Collapsing white space keeps every other character, in order. */
  lemma {:induction false} CollapseSpaceKeepsText(s: string)
    ensures NonSpace(CollapseSpace(s)) == NonSpace(s)
    decreases |s|
  {
    if s != [] {
      if IsSpace(s[0]) {
        var j := RunEnd(s, 0, IsSpace);
        var rest := CollapseSpace(s[j..]);
        CollapseSpaceKeepsText(s[j..]);
        assert (" " + rest)[1..] == rest;
        assert NonSpace(CollapseSpace(s)) == NonSpace(rest);
        NonSpaceSkipsRun(s, j);
      } else {
        CollapseSpaceKeepsText(s[1..]);
        assert ([s[0]] + CollapseSpace(s[1..]))[1..] == CollapseSpace(s[1..]);
      }
    }
  }

  /** A text without white space is left as it is. */
  lemma {:induction false} CollapseSpaceOfWord(s: string)
    requires forall i | 0 <= i < |s| :: !IsSpace(s[i])
    ensures CollapseSpace(s) == s
    decreases |s|
  {
    if s != [] {
      CollapseSpaceOfWord(s[1..]);
    }
  }

  /** The white-space run that starts a text ends where the text's first
      non-space character is. */
  lemma RunEndAcross(a: string, t: string)
    requires exists k | 0 <= k < |a| :: !IsSpace(a[k])
    ensures RunEnd(a + t, 0, IsSpace) == RunEnd(a, 0, IsSpace) < |a|
  {
    var j := RunEnd(a, 0, IsSpace);
    assert (a + t)[j] == a[j];
    RunEndIs(a + t, 0, j);
  }

  /** `RunEnd` is the first position from `i` whose character is not white space. */
  lemma {:induction false} RunEndIs(s: string, i: nat, j: nat)
    requires i <= j < |s| && !IsSpace(s[j])
    requires forall k | i <= k < j :: IsSpace(s[k])
    ensures RunEnd(s, i, IsSpace) == j
    decreases j - i
  {
    if i < j {
      RunEndIs(s, i + 1, j);
    }
  }

  /** Each maximal run of white space becomes one space: with `w` a non-empty run that
      neither the text before it ends in nor the text after it starts with white space,
      `a + w + b` collapses to the collapse of `a`, one space and the collapse of `b`. */
  lemma {:induction false} CollapseSpaceRun(a: string, w: string, b: string)
    requires w != [] && AllSpace(w)
    requires a == [] || !IsSpace(a[|a| - 1])
    requires b == [] || !IsSpace(b[0])
    ensures CollapseSpace(a + w + b) == CollapseSpace(a) + " " + CollapseSpace(b)
    decreases |a|
  {
    if a == [] {
      assert a + w + b == w + b;
      CollapseLeadingRun(w, b);
    } else if !IsSpace(a[0]) {
      CollapseSpaceRun(a[1..], w, b);
      CollapseWordStep(a, w, b);
    } else {
      var j := RunEnd(a, 0, IsSpace);
      RunEndAcross(a, w + b);
      assert a[j..][|a[j..]| - 1] == a[|a| - 1];
      CollapseSpaceRun(a[j..], w, b);
      CollapseSpaceStep(a, w, b);
    }
  }

  /** The step for a leading non-space character, which is kept. */
  lemma CollapseWordStep(a: string, w: string, b: string)
    requires a != [] && !IsSpace(a[0])
    requires CollapseSpace(a[1..] + w + b) == CollapseSpace(a[1..]) + " " + CollapseSpace(b)
    ensures CollapseSpace(a + w + b) == CollapseSpace(a) + " " + CollapseSpace(b)
  {
    var s := a + w + b;
    DropOfAppend(a, w, b, 1);
    var x, z := CollapseSpace(a[1..]), CollapseSpace(b);
    assert CollapseSpace(s) == [a[0]] + (x + " " + z);
    assert CollapseSpace(a) == [a[0]] + x;
    Regroup([a[0]], x, " ", z);
  }

  /** The step for a leading run of white space that ends inside `a`: it becomes one space. */
  lemma CollapseSpaceStep(a: string, w: string, b: string)
    requires a != [] && IsSpace(a[0])
    requires RunEnd(a + (w + b), 0, IsSpace) == RunEnd(a, 0, IsSpace) < |a|
    requires var j := RunEnd(a, 0, IsSpace);
      CollapseSpace(a[j..] + w + b) == CollapseSpace(a[j..]) + " " + CollapseSpace(b)
    ensures CollapseSpace(a + w + b) == CollapseSpace(a) + " " + CollapseSpace(b)
  {
    var j := RunEnd(a, 0, IsSpace);
    var s := a + w + b;
    DropOfAppend(a, w, b, j);
    var x, z := CollapseSpace(a[j..]), CollapseSpace(b);
    assert CollapseSpace(s) == " " + (x + " " + z);
    assert CollapseSpace(a) == " " + x;
    Regroup(" ", x, " ", z);
  }

  /** Dropping a prefix of `a` from `a + w + b`. */
  lemma DropOfAppend(a: string, w: string, b: string, j: nat)
    requires j <= |a|
    ensures a + w + b == a + (w + b)
    ensures j < |a| ==> (a + w + b)[0] == a[0]
    ensures (a + w + b)[j..] == a[j..] + w + b
  {
  }

  lemma Regroup(h: string, x: string, y: string, z: string)
    ensures h + (x + y + z) == h + x + y + z
  {
  }

  /** A leading run of white space becomes one space. */
  lemma CollapseLeadingRun(w: string, b: string)
    requires w != [] && AllSpace(w)
    requires b == [] || !IsSpace(b[0])
    ensures CollapseSpace(w + b) == " " + CollapseSpace(b)
  {
    var s := w + b;
    if b != [] {
      assert s[|w|] == b[0];
      RunEndIs(s, 0, |w|);
    }
    assert s[|w|..] == b;
  }

  /** Trimming drops white space only. */
  lemma TrimKeepsText(s: string)
    ensures NonSpace(Trim(s)) == NonSpace(s)
  {
    TrimStartKeepsText(s);
    TrimEndKeepsText(TrimStart(s));
  }

  lemma TrimStartKeepsText(s: string)
    ensures NonSpace(TrimStart(s)) == NonSpace(s)
  {
    TrimStartIsSuffix(s);
    NonSpaceSkipsRun(s, |s| - |TrimStart(s)|);
  }

  lemma TrimEndKeepsText(t: string)
    ensures NonSpace(TrimEnd(t)) == NonSpace(t)
  {
    var r := TrimEnd(t);
    assert t == r + t[|r|..];
    NonSpaceAppend(r, t[|r|..]);
    NonSpaceOfSpace(t[|r|..]);
  }

  /** `cleanUpdateTitle`: drops "《 》" and then "《》", collapses white space and trims.
      The result is trimmed and single-spaced. */
  function CleanUpdateTitle(text: string): (r: string)
    ensures IsTrimmed(r) && SingleSpaced(r)
  {
    var a := ReplaceAll(text, "《 》", "");
    var b := ReplaceAll(a, "《》", "");
    var c := CollapseSpace(b);
    var t := TrimStart(c);
    TrimStartIsSuffix(c);
    InfixSingleSpaced(c, |c| - |t|, |c|);
    InfixSingleSpaced(t, 0, |TrimEnd(t)|);
    Trim(c)
  }

  /** The cleaned title keeps, in order, every character of the text that is not white
      space, once the "《 》" and then the "《》" pairs are removed. */
  lemma CleanUpdateTitleKeepsText(text: string)
    ensures NonSpace(CleanUpdateTitle(text)) == NonSpace(ReplaceAll(ReplaceAll(text, "《 》", ""), "《》", ""))
  {
    var b := ReplaceAll(ReplaceAll(text, "《 》", ""), "《》", "");
    CollapseSpaceKeepsText(b);
    TrimKeepsText(CollapseSpace(b));
  }

  /** An empty pair of title brackets around a non-space blank is not removed: it becomes "《 》". */
  lemma CleanUpdateTitleKeepsTabBrackets()
    ensures CleanUpdateTitle("《\t》") == "《 》"
  {
    var x := "《\t》";
    assert x[..3] != "《 》" by { assert x[1] == '\t'; }
    assert x[1..] == "\t》";
    assert ReplaceAll(x, "《 》", "") == x;
    assert x[..2] != "《》" by { assert x[1] == '\t'; }
    assert x[1..][..2] != "《》" by { assert x[1..][0] == '\t'; }
    assert x[1..][1..] == "》";
    assert ReplaceAll(x[1..], "《》", "") == x[1..];
    assert ReplaceAll(x, "《》", "") == x;
    assert RunEnd(x[1..], 0, IsSpace) == 1;
    assert CollapseSpace(x[1..][1..]) == "》";
    assert CollapseSpace(x[1..]) == " 》";
    assert CollapseSpace(x) == "《 》";
    assert Trim("《 》") == "《 》";
  }

  /** One of the mojibake markers "Ã", "Â", "â€", "æ·" or U+FFFD starts at `i`. */
  predicate NoiseAt(s: string, i: int) {
    OccursAt(s, "\U{00C3}", i) || OccursAt(s, "\U{00C2}", i) || OccursAt(s, "\U{00E2}\U{20AC}", i)
    || OccursAt(s, "\U{00E6}\U{00B7}", i) || OccursAt(s, "\U{FFFD}", i)
  }

  function NoiseFrom(s: string, i: nat): (r: bool)
    ensures r <==> exists k | i <= k < |s| :: NoiseAt(s, k)
    decreases |s| - i
  {
    if i >= |s| then false else NoiseAt(s, i) || NoiseFrom(s, i + 1)
  }

  /** `hasMojibakeNoise`: false for "", otherwise whether any marker occurs. */
  function HasMojibakeNoise(text: string): (r: bool)
    ensures r <==> (text != [] && (Contains(text, "\U{00C3}") || Contains(text, "\U{00C2}")
      || Contains(text, "\U{00E2}\U{20AC}") || Contains(text, "\U{00E6}\U{00B7}") || Contains(text, "\U{FFFD}")))
  {
    NoiseIffContains(text);
    text != [] && NoiseFrom(text, 0)
  }

  lemma NoiseIffContains(text: string)
    ensures NoiseFrom(text, 0) <==> (Contains(text, "\U{00C3}") || Contains(text, "\U{00C2}")
      || Contains(text, "\U{00E2}\U{20AC}") || Contains(text, "\U{00E6}\U{00B7}") || Contains(text, "\U{FFFD}"))
  {
    if NoiseFrom(text, 0) {
      var k :| 0 <= k < |text| && NoiseAt(text, k);
      assert OccursAt(text, "\U{00C3}", k) ==> Contains(text, "\U{00C3}");
      assert OccursAt(text, "\U{00C2}", k) ==> Contains(text, "\U{00C2}");
      assert OccursAt(text, "\U{00E2}\U{20AC}", k) ==> Contains(text, "\U{00E2}\U{20AC}");
      assert OccursAt(text, "\U{00E6}\U{00B7}", k) ==> Contains(text, "\U{00E6}\U{00B7}");
    } else {
      forall i | 0 <= i < |text|
        ensures !OccursAt(text, "\U{00C3}", i) && !OccursAt(text, "\U{00C2}", i)
        ensures !OccursAt(text, "\U{00E2}\U{20AC}", i) && !OccursAt(text, "\U{00E6}\U{00B7}", i)
        ensures !OccursAt(text, "\U{FFFD}", i)
      {
        assert !NoiseAt(text, i);
      }
    }
  }

  /** A character that makes `maybeFixMojibake` try a repair: one of "Ãâåèæïðçé" or a C1
      control character U+0080 to U+009F. */
  predicate MojibakeHint(c: char) {
    c == '\U{00C3}' || c == '\U{00E2}' || c == '\U{00E5}' || c == '\U{00E8}' || c == '\U{00E6}'
    || c == '\U{00EF}' || c == '\U{00F0}' || c == '\U{00E7}' || c == '\U{00E9}'
    || ('\U{0080}' <= c <= '\U{009F}')
  }

  function HasMojibakeHint(s: string): (r: bool)
    ensures r <==> exists i | 0 <= i < |s| :: MojibakeHint(s[i])
    decreases |s|
  {
    if s == [] then false
    else if MojibakeHint(s[0]) then true
    else
      var rest := HasMojibakeHint(s[1..]);
      assert forall i | 1 <= i < |s| :: s[i] == s[1..][i - 1];
      rest
  }

  /** The byte-level reinterpretation `Buffer.from(s, 'latin1').toString('utf-8')`; `None`
      stands for a thrown error. */
  type Latin1ToUtf8 = string -> Option<string>

  /** `maybeFixMojibake`: the trimmed text, unless it carries a hint and the reinterpretation
      yields a different, non-empty text free of U+FFFD. */
  function MaybeFixMojibake(text: string, reinterpret: Latin1ToUtf8): (r: string)
    ensures !HasMojibakeHint(Trim(text)) ==> r == Trim(text)
    ensures r == Trim(text) || (r != [] && !Contains(r, "\U{FFFD}") && reinterpret(Trim(text)) == Some(r))
  {
    var s := Trim(text);
    if s == [] then s
    else if !HasMojibakeHint(s) then s
    else match reinterpret(s)
      case None => s
      case Some(fixed) => if fixed != [] && fixed != s && !Contains(fixed, "\U{FFFD}") then fixed else s
  }
}
