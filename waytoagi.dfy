/** The WaytoAGI adapter (`src/fetchers/waytoagi.ts`): the Feishu document state embedded
    in the page, the dated update entries under its heading tree, and the seven-day
    digest. Fetching pages, `JSON.parse` of the state and the history-link search are
    left to the caller, which hands over their results. */
module Waytoagi {
  import opened Wrappers
  import opened Strings
  import opened Sorting
  import opened OrderedMaps
  import Text
  import Calendar
  import Dates
  import Scanner

  // ----- extractFeishuClientVars -----

  /** The text right before the client state's opening parenthesis. */
  const CLIENT_VARS_MARKER: string := "window.DATA = Object.assign({}, window.DATA, { clientVars: Object("

  const MARKER_MISSING: string := "Cannot locate Feishu clientVars marker"
  const PAYLOAD_UNBALANCED: string := "Cannot parse Feishu clientVars payload"

  /** What `extractFeishuClientVars(html)` hands to `JSON.parse`: the text from just after
      the marker up to the parenthesis that takes the depth from 1 to 0. */
  function ClientVarsSpec(html: string): (r: Result<string>) {
    var idx := IndexOf(html, CLIENT_VARS_MARKER);
    if idx == -1 then Err(MARKER_MISSING)
    else
      var start := idx + |CLIENT_VARS_MARKER|;
      match Scanner.CloseFrom(html, start, Scanner.Start(1), '(', ')')
      case None => Err(PAYLOAD_UNBALANCED)
      case Some(e) => Ok(html[start..e])
  }

  /** A missing marker is one error and an unclosed parenthesis the other; a payload is
      balanced: scanned from depth 1 it ends outside strings at depth 1, the next character
      is the closing parenthesis, and no earlier one closes. */
  lemma ClientVarsResult(html: string)
    ensures ClientVarsSpec(html) == Err(MARKER_MISSING) <==> !Contains(html, CLIENT_VARS_MARKER)
    ensures Contains(html, CLIENT_VARS_MARKER) ==>
      var start := IndexOf(html, CLIENT_VARS_MARKER) + |CLIENT_VARS_MARKER|;
      match ClientVarsSpec(html)
      case Err(m) =>
        m == PAYLOAD_UNBALANCED
        && forall j | start <= j < |html| ::
          !Scanner.Closes(Scanner.Run(html[start..j], Scanner.Start(1), '(', ')'), html[j], '(', ')')
      case Ok(payload) =>
        var e := start + |payload|;
        e < |html| && payload == html[start..e] && html[e] == ')'
        && Scanner.Run(payload, Scanner.Start(1), '(', ')').depth == 1
        && !Scanner.Run(payload, Scanner.Start(1), '(', ')').inStr
        && forall j | start <= j < e ::
          !Scanner.Closes(Scanner.Run(html[start..j], Scanner.Start(1), '(', ')'), html[j], '(', ')')
  {
    if Contains(html, CLIENT_VARS_MARKER) {
      var start := IndexOf(html, CLIENT_VARS_MARKER) + |CLIENT_VARS_MARKER|;
      Scanner.CloseFromFirst(html, start, Scanner.Start(1), '(', ')');
    }
  }

  /** `extractFeishuClientVars(html)` up to the `JSON.parse` of the payload. */
  method ExtractFeishuClientVars(html: string) returns (r: Result<string>)
    ensures r == ClientVarsSpec(html)
  {
    var idx := IndexOf(html, CLIENT_VARS_MARKER);
    if idx == -1 {
      return Err(MARKER_MISSING);
    }
    var start := idx + |CLIENT_VARS_MARKER|;
    var end := Scanner.ScanClose(html, start, 1, '(', ')');
    if end.None? {
      return Err(PAYLOAD_UNBALANCED);
    }
    return Ok(html[start..end.value]);
  }

  // ----- blockText -----

  /** A block's `data`: its type, its `parent_id` and the entries of
      `text.initialAttributedTexts.text` in object order (empty when any of them is
      missing or not an object), each value already in its `String(v)` form. */
  datatype BlockData = BlockData(btype: Option<string>, parentId: Option<string>, segments: seq<(string, string)>)

  predicate IsHexDigit(c: char) {
    IsDigit(c) || ('a' <= c <= 'f') || ('A' <= c <= 'F')
  }

  function HexDigitValue(c: char): nat
    requires IsHexDigit(c)
  {
    if IsDigit(c) then c as int - '0' as int
    else if 'a' <= c <= 'f' then c as int - 'a' as int + 10
    else c as int - 'A' as int + 10
  }

  function HexValue(s: string): nat
    requires forall i | 0 <= i < |s| :: IsHexDigit(s[i])
    decreases |s|
  {
    if s == [] then 0 else HexValue(s[..|s| - 1]) * 16 + HexDigitValue(s[|s| - 1])
  }

  /** `parseInt(s)`: leading white space, an optional sign, then hexadecimal digits after
      "0x" or "0X" and decimal digits otherwise, as many as there are; `None` for NaN. */
  function ParseInt(s: string): (r: Option<int>) {
    var t := TrimStart(s);
    var negative := t != [] && t[0] == '-';
    var u := if t != [] && (t[0] == '-' || t[0] == '+') then t[1..] else t;
    var sign := if negative then -1 else 1;
    if |u| >= 2 && u[0] == '0' && (u[1] == 'x' || u[1] == 'X') then
      var e := RunEnd(u, 2, IsHexDigit);
      if e == 2 then None else Some(sign * HexValue(u[2..e]))
    else
      var e := RunEnd(u, 0, IsDigit);
      if e == 0 then None else Some(sign * DigitsValue(u[..e]))
  }

  /** A key written the way objects store array-like indices reads back as its number. */
  lemma ParseIntOfIndex(n: nat)
    ensures ParseInt(NatToString(n)) == Some(n)
  {
    var s := NatToString(n);
    assert !IsSpace(s[0]) by { assert IsDigit(s[0]); }
    assert TrimStart(s) == s;
    assert !(|s| >= 2 && s[0] == '0' && s[1] == 'x') by {
      if |s| >= 2 { assert IsDigit(s[1]); }
    }
    assert !(|s| >= 2 && s[0] == '0' && s[1] == 'X') by {
      if |s| >= 2 { assert IsDigit(s[1]); }
    }
    assert RunEnd(s, 0, IsDigit) == |s|;
    assert s[..|s|] == s;
    NatToStringValue(n);
  }

  /** The key comparator `parseInt(a[0]) - parseInt(b[0])`: negative exactly when both keys
      are numbers and the first is smaller (a NaN difference counts as 0). */
  function SegmentBefore(): ((string, string), (string, string)) -> bool {
    (a: (string, string), b: (string, string)) =>
      ParseInt(a.0).Some? && ParseInt(b.0).Some? && ParseInt(a.0).value < ParseInt(b.0).value
  }

  function SegmentText(): ((string, string)) -> string {
    (seg: (string, string)) => seg.1
  }

  /** `blockText(bd)`: the segments in key order, concatenated and trimmed. */
  function BlockText(bd: BlockData): string {
    Trim(Join(MapSeq(SortBy(bd.segments, SegmentBefore()), SegmentText()), ""))
  }

  lemma SegmentBeforeIsStrictOrder()
    ensures StrictOrder(SegmentBefore())
  {
  }

  /** The segments are joined in the order of their numeric keys, each exactly once; when
      they are already in that order, in the order given. */
  lemma BlockTextOrder(bd: BlockData)
    ensures SortedBy(SortBy(bd.segments, SegmentBefore()), SegmentBefore())
    ensures multiset(SortBy(bd.segments, SegmentBefore())) == multiset(bd.segments)
    ensures SortedBy(bd.segments, SegmentBefore()) ==>
      BlockText(bd) == Trim(Join(MapSeq(bd.segments, SegmentText()), ""))
  {
    SegmentBeforeIsStrictOrder();
    SortBySorted(bd.segments, SegmentBefore());
    if SortedBy(bd.segments, SegmentBefore()) {
      SortBySortedUnchanged(bd.segments, SegmentBefore());
    }
  }

  // ----- parseYmHeading / parseMdHeading -----

  /** One or two greedy digits at `p`, then optional white space and `unit`: the end of
      the digits and the index after the unit. Shortening the digits cannot help, since a
      digit is neither white space nor a unit. */
  function NumberThen(s: string, p: nat, unit: char): Option<(nat, nat)>
    requires p <= |s|
  {
    var e := DigitsUpTo(s, p, 2);
    if e == p then None
    else
      var u := RunEnd(s, e, IsSpace);
      if u < |s| && s[u] == unit then Some((e, u + 1)) else None
  }

  /** `(20\d{2})\s*年\s*(\d{1,2})\s*月` at `p`: year and month. */
  function YmAt(s: string, p: nat): Option<(int, int)>
    requires p <= |s|
  {
    if !(p + 4 <= |s| && s[p] == '2' && s[p + 1] == '0' && IsDigit(s[p + 2]) && IsDigit(s[p + 3])) then None
    else
      var y := RunEnd(s, p + 4, IsSpace);
      if !(y < |s| && s[y] == '年') then None
      else
        var m := RunEnd(s, y + 1, IsSpace);
        match NumberThen(s, m, '月')
        case None => None
        case Some(r) => Some((DigitsValue(s[p..p + 4]), DigitsValue(s[m..r.0])))
  }

  /** `(\d{1,2})\s*月\s*(\d{1,2})\s*日` at `p`: month and day. */
  function MdAt(s: string, p: nat): Option<(int, int)>
    requires p <= |s|
  {
    match NumberThen(s, p, '月')
    case None => None
    case Some(mr) =>
      var d := RunEnd(s, mr.1, IsSpace);
      match NumberThen(s, d, '日')
      case None => None
      case Some(dr) => Some((DigitsValue(s[p..mr.0]), DigitsValue(s[d..dr.0])))
  }

  /** The leftmost match of a heading pattern. */
  function FindYm(s: string, p: nat): Option<(int, int)>
    requires p <= |s|
    decreases |s| - p
  {
    if YmAt(s, p).Some? then YmAt(s, p) else if p == |s| then None else FindYm(s, p + 1)
  }

  function FindMd(s: string, p: nat): Option<(int, int)>
    requires p <= |s|
    decreases |s| - p
  {
    if MdAt(s, p).Some? then MdAt(s, p) else if p == |s| then None else FindMd(s, p + 1)
  }

  /** `parseYmHeading(text)` */
  function ParseYmHeading(text: string): Option<(int, int)> {
    FindYm(text, 0)
  }

  /** `parseMdHeading(text)` */
  function ParseMdHeading(text: string): Option<(int, int)> {
    FindMd(text, 0)
  }

  /** One or two digits at `p`, directly followed by the unit: they are what
      `NumberThen` reads. */
  lemma NumberThenAt(s: string, p: nat, n: nat, unit: char)
    requires 1 <= n <= 2 && p + n < |s| && s[p + n] == unit && !IsSpace(unit) && !IsDigit(unit)
    requires forall k | p <= k < p + n :: IsDigit(s[k])
    ensures NumberThen(s, p, unit) == Some((p + n, p + n + 1))
  {
    assert DigitsUpTo(s, p + n, 2 - n) == p + n;
    if n == 2 {
      assert DigitsUpTo(s, p + 1, 1) == p + 2;
    }
    assert RunEnd(s, p + n, IsSpace) == p + n;
  }

  /** A "M月D日" heading written with one- or two-digit numbers reads back as its month
      and day. */
  lemma MdHeadingRoundTrip(month: nat, day: nat, rest: string)
    requires |NatToString(month)| <= 2 && |NatToString(day)| <= 2
    ensures ParseMdHeading(NatToString(month) + "月" + NatToString(day) + "日" + rest) == Some((month, day))
  {
    MdAtOfText(month, day, rest);
  }

  /** The match at the start of such a heading. */
  lemma MdAtOfText(month: nat, day: nat, rest: string)
    requires |NatToString(month)| <= 2 && |NatToString(day)| <= 2
    ensures MdAt(NatToString(month) + "月" + NatToString(day) + "日" + rest, 0) == Some((month, day))
  {
    NatToStringValue(month);
    NatToStringValue(day);
    MdAtOfDigits(NatToString(month), NatToString(day), rest);
  }

  /** One or two digits, "月", one or two digits, "日": the match reads both numbers. */
  lemma MdAtOfDigits(a: string, b: string, rest: string)
    requires 1 <= |a| <= 2 && 1 <= |b| <= 2 && AllDigits(a) && AllDigits(b)
    ensures MdAt(a + "月" + b + "日" + rest, 0) == Some((DigitsValue(a), DigitsValue(b)))
  {
    var s := a + "月" + b + "日" + rest;
    var d := |a| + 1;
    HeadingPieces(a, '月', b, '日', rest);
    NumberThenAt(s, 0, |a|, '月');
    assert RunEnd(s, d, IsSpace) == d by {
      assert s[d] == b[0];
    }
    NumberThenAt(s, d, |b|, '日');
    assert s[0..|a|] == a;
  }

  /** Where the numbers and units of `a u b v rest` lie. */
  lemma HeadingPieces(a: string, u: char, b: string, v: char, rest: string)
    ensures var s := a + [u] + b + [v] + rest;
      var d := |a| + 1;
      |s| == d + |b| + 1 + |rest|
      && s[..|a|] == a && s[d..d + |b|] == b && s[|a|] == u && s[d + |b|] == v
      && (forall k | 0 <= k < |a| :: s[k] == a[k])
      && (forall k | 0 <= k < |b| :: s[d + k] == b[k])
  {
    var s := a + [u] + b + [v] + rest;
    var d := |a| + 1;
    assert s == a + ([u] + b + [v] + rest);
    assert s[d..d + |b|] == b by {
      assert s[d..] == b + [v] + rest;
    }
  }

  /** A year from 2000 to 2099 is written as four digits starting "20". */
  lemma TwentiethCenturyYear(year: nat)
    requires 2000 <= year <= 2099
    ensures var a := NatToString(year); |a| == 4 && a[0] == '2' && a[1] == '0'
  {
    var q := year / 10;
    assert 200 <= q <= 209;
    var h := q / 10;
    assert h == 20;
    assert NatToString(h) == NatToString(2) + [DigitChar(0)];
    assert NatToString(q) == NatToString(h) + [DigitChar(q % 10)];
    assert NatToString(year) == NatToString(q) + [DigitChar(year % 10)];
  }

  /** A "YYYY年M月" heading with a year from 2000 to 2099 and a one- or two-digit month
      reads back as its year and month. */
  lemma YmHeadingRoundTrip(year: nat, month: nat, rest: string)
    requires 2000 <= year <= 2099 && |NatToString(month)| <= 2
    ensures ParseYmHeading(NatToString(year) + "年" + NatToString(month) + "月" + rest) == Some((year, month))
  {
    var a, b := NatToString(year), NatToString(month);
    NatToStringValue(year);
    TwentiethCenturyYear(year);
    var s := a + "年" + b + "月" + rest;
    assert s[..4] == a && s[5..5 + |b|] == b;
    assert s[4] == '年' && s[5 + |b|] == '月';
    assert RunEnd(s, 4, IsSpace) == 4;
    assert RunEnd(s, 5, IsSpace) == 5 by {
      assert s[5] == b[0];
    }
    NumberThenAt(s, 5, |b|, '月');
    NatToStringValue(month);
    assert YmAt(s, 0) == Some((year, month));
  }

  // ----- inferShanghaiYearForMonthDay -----

  /** `inferShanghaiYearForMonthDay(nowSh, month, day)`: the current year, or the previous
      one when this year's date lies after two days from now. `offset` is the process's
      local offset, in which `nowSh` reads as Shanghai wall-clock time. The `try` never
      fails, so the result is never `null`. */
  function InferYear(nowSh: int, offset: int, month: int, day: int): int {
    var year := Calendar.LocalYear(nowSh, offset);
    var candidate := Calendar.LocalDate(year, month - 1, day, offset);
    if candidate > Calendar.AddDays(nowSh, 2) then year - 1 else year
  }

  /** For a month and day that exist in this year and the last, the inferred year is the
      later of the two whose date, read back in local time as that month and day, lies at
      most two days after `nowSh`: the same choice the month-day rule of the relative
      date parser makes. */
  lemma InferYearMeaning(nowSh: int, offset: int, month: nat, day: nat)
    requires Calendar.ValidCivil(Calendar.Civil(Calendar.LocalYear(nowSh, offset), month, day))
    requires Calendar.ValidCivil(Calendar.Civil(Calendar.LocalYear(nowSh, offset) - 1, month, day))
    requires Calendar.FourDigitYear(Calendar.LocalYear(nowSh, offset))
    requires Calendar.FourDigitYear(Calendar.LocalYear(nowSh, offset) - 1)
    ensures var year := Calendar.LocalYear(nowSh, offset);
      var y := InferYear(nowSh, offset, month, day);
      var t := Calendar.LocalDate(y, month - 1, day, offset);
      (y == year || y == year - 1)
      && Calendar.CivilFromDays(Calendar.LocalDay(t, offset)) == Calendar.Civil(y, month, day)
      && t <= Calendar.AddDays(nowSh, 2)
      && (y == year - 1 <==> Calendar.LocalDate(year, month - 1, day, offset) > Calendar.AddDays(nowSh, 2))
      && t == Dates.MonthDayDate(nowSh, offset, month, day)
  {
    var year := Calendar.LocalYear(nowSh, offset);
    var y := InferYear(nowSh, offset, month, day);
    var bound := Calendar.AddDays(nowSh, 2);
    assert bound == nowSh + 2 * Calendar.DAY;
    assert y == (if Calendar.LocalDate(year, month - 1, day, offset) > bound then year - 1 else year);
    Dates.MonthDayDateMeaning(nowSh, offset, month, day);
    assert Calendar.LocalDate(y, month - 1, day, offset) == Dates.MonthDayDate(nowSh, offset, month, day);
    Calendar.LocalDateReadsBack(y, month, day, offset);
  }

  // ----- extractWaytoagiRecentUpdates -----

  /** The block map, as `Object.entries` lists it: block id and data. Object keys are
      distinct, which the lemmas below assume where it matters. */
  type Blocks = seq<(string, BlockData)>

  function BlockId(): ((string, BlockData)) -> string {
    (b: (string, BlockData)) => b.0
  }

  /** `String(bd.parent_id || '')` */
  function ParentText(bd: BlockData): string {
    if bd.parentId.Some? then bd.parentId.value else ""
  }

  predicate HasType(bd: BlockData, names: set<string>) {
    bd.btype.Some? && bd.btype.value in names
  }

  const HEADING_TYPES: set<string> := {"heading1", "heading2", "heading3"}
  const ENTRY_TYPES: set<string> := {"bullet", "text", "todo", "ordered"}

  predicate IsNearLogHeading(text: string) {
    Contains(text, "近7日更新日志") || Contains(text, "近 7 日更新日志")
  }

  /** What a block adds to `nearLogParentIds`: the trimmed parent of an update-log
      heading, when there is one. */
  function NearLogParentOf(bd: BlockData): Option<string> {
    if HasType(bd, HEADING_TYPES) && IsNearLogHeading(BlockText(bd)) && Trim(ParentText(bd)) != "" then
      Some(Trim(ParentText(bd)))
    else None
  }

  function NearLogParentFn(): ((string, BlockData)) -> Option<string> {
    (b: (string, BlockData)) => NearLogParentOf(b.1)
  }

  /** `nearLogParentIds` after the first loop. */
  function NearLogParents(blocks: Blocks): set<string> {
    Gather(blocks, NearLogParentFn())
  }

  /** A loop of `set.add` over the values a function picks out of a list. */
  function Gather<A, K>(s: seq<A>, f: A -> Option<K>): set<K>
    decreases |s|
  {
    if s == [] then {}
    else
      var prev := Gather(s[..|s| - 1], f);
      match f(s[|s| - 1])
      case None => prev
      case Some(k) => prev + {k}
  }

  /** The set holds exactly the values some element yields. */
  lemma {:induction false} GatherMembers<A, K>(s: seq<A>, f: A -> Option<K>, k: K)
    ensures k in Gather(s, f) <==> exists i | 0 <= i < |s| :: f(s[i]) == Some(k)
    decreases |s|
  {
    if s != [] {
      var n := |s| - 1;
      var init := s[..n];
      GatherMembers(init, f, k);
      if exists i | 0 <= i < |s| :: f(s[i]) == Some(k) {
        var i :| 0 <= i < |s| && f(s[i]) == Some(k);
        if i < n { assert init[i] == s[i]; }
      }
      if k in Gather(init, f) {
        var i :| 0 <= i < |init| && f(init[i]) == Some(k);
        assert init[i] == s[i];
      }
    }
  }

  /** The update-log parents are the trimmed, non-empty parents of the headings whose
      text names the seven-day log. */
  lemma NearLogParentsMembers(blocks: Blocks, p: string)
    requires p in NearLogParents(blocks)
    ensures p != "" && IsTrimmed(p)
    ensures exists i | 0 <= i < |blocks| ::
      HasType(blocks[i].1, HEADING_TYPES) && IsNearLogHeading(BlockText(blocks[i].1)) && Trim(ParentText(blocks[i].1)) == p
  {
    GatherMembers(blocks, NearLogParentFn(), p);
    var i :| 0 <= i < |blocks| && NearLogParentFn()(blocks[i]) == Some(p);
    var bd := blocks[i].1;
    assert NearLogParentOf(bd) == Some(p);
    assert p == Trim(ParentText(bd));
  }

  /** Every update-log heading with a non-empty trimmed parent contributes that parent. */
  lemma NearLogParentsComplete(blocks: Blocks, i: int)
    requires 0 <= i < |blocks|
    requires HasType(blocks[i].1, HEADING_TYPES) && IsNearLogHeading(BlockText(blocks[i].1))
    requires Trim(ParentText(blocks[i].1)) != ""
    ensures Trim(ParentText(blocks[i].1)) in NearLogParents(blocks)
  {
    GatherMembers(blocks, NearLogParentFn(), Trim(ParentText(blocks[i].1)));
    assert NearLogParentFn()(blocks[i]) == Some(Trim(ParentText(blocks[i].1)));
  }

  /** The first loop. */
  method CollectNearLogParents(blocks: Blocks) returns (near: set<string>)
    ensures near == NearLogParents(blocks)
  {
    near := {};
    var i := 0;
    while i < |blocks|
      invariant 0 <= i <= |blocks|
      invariant near == NearLogParents(blocks[..i])
    {
      assert blocks[..i + 1][..i] == blocks[..i];
      var bd := blocks[i].1;
      if HasType(bd, HEADING_TYPES) {
        var headingText := BlockText(bd);
        if IsNearLogHeading(headingText) {
          var parentId := Trim(ParentText(bd));
          if parentId != "" {
            near := near + {parentId};
          }
        }
      }
      i := i + 1;
    }
    assert blocks[..i] == blocks;
  }

  /** `` `${year}-${pad2(month)}-${pad2(day)}` `` */
  function DateString(year: int, month: int, day: int): string {
    IntToString(year) + "-" + Pad2(month) + "-" + Pad2(day)
  }

  /** What a block adds to `heading3Dates`: a "M月D日" heading3 under an allowed parent
      (any parent when there are no update-log headings) is dated with the inferred year.
      The year looked up in `ymByHeading2` first is always replaced by the inferred one. */
  function Heading3DateOf(near: set<string>, nowSh: int, offset: int): ((string, BlockData)) -> Option<(string, string)> {
    (b: (string, BlockData)) =>
      if b.1.btype != Some("heading3") then None
      else match ParseMdHeading(BlockText(b.1))
        case None => None
        case Some(md) =>
          if near != {} && ParentText(b.1) !in near then None
          else Some((b.0, DateString(InferYear(nowSh, offset, md.0, md.1), md.0, md.1)))
  }

  /** What a block adds to `parentMap`: its trimmed, non-empty parent. */
  function ParentOf(): ((string, BlockData)) -> Option<(string, string)> {
    (b: (string, BlockData)) =>
      if Trim(ParentText(b.1)) != "" then Some((b.0, Trim(ParentText(b.1)))) else None
  }

  /** `heading3Dates` after the third loop. */
  function Heading3Dates(blocks: Blocks, near: set<string>, nowSh: int, offset: int): map<string, string> {
    Tabulate(blocks, Heading3DateOf(near, nowSh, offset))
  }

  /** `parentMap` after the fourth loop. */
  function ParentMap(blocks: Blocks): map<string, string> {
    Tabulate(blocks, ParentOf())
  }

  /** The loop of `m.set` that `Tabulate` describes. */
  method BuildMap(blocks: Blocks, f: ((string, BlockData)) -> Option<(string, string)>) returns (m: map<string, string>)
    ensures m == Tabulate(blocks, f)
  {
    m := map[];
    var i := 0;
    while i < |blocks|
      invariant 0 <= i <= |blocks|
      invariant m == Tabulate(blocks[..i], f)
    {
      assert blocks[..i + 1][..i] == blocks[..i];
      var entry := f(blocks[i]);
      if entry.Some? {
        m := m[entry.value.0 := entry.value.1];
      }
      i := i + 1;
    }
    assert blocks[..i] == blocks;
  }

  /** Over distinct block ids, with a function that keys each block by its own id: a
      block's id is in the map exactly when the function picks the block, with the value
      it gives, and no other key is. */
  lemma TabulateByIds(blocks: Blocks, f: ((string, BlockData)) -> Option<(string, string)>)
    requires KeysDistinct(blocks, BlockId())
    requires forall i | 0 <= i < |blocks| && f(blocks[i]).Some? :: f(blocks[i]).value.0 == blocks[i].0
    ensures forall i | 0 <= i < |blocks| :: blocks[i].0 in Tabulate(blocks, f) <==> f(blocks[i]).Some?
    ensures forall i | 0 <= i < |blocks| && f(blocks[i]).Some? :: Tabulate(blocks, f)[blocks[i].0] == f(blocks[i]).value.1
    ensures forall k | k in Tabulate(blocks, f) :: exists i | 0 <= i < |blocks| :: blocks[i].0 == k
  {
    TabulateMembers(blocks, f);
    forall i | 0 <= i < |blocks| && f(blocks[i]).Some? ensures LastSetAt(blocks, f, i) {
      forall j | i < j < |blocks| && f(blocks[j]).Some? ensures f(blocks[j]).value.0 != f(blocks[i]).value.0 {
        if blocks[j].0 == blocks[i].0 {
          SameIdSameBlock(blocks, i, j);
        }
      }
    }
    forall i | 0 <= i < |blocks| && blocks[i].0 in Tabulate(blocks, f) ensures f(blocks[i]).Some? {
      var j :| 0 <= j < |blocks| && f(blocks[j]).Some? && f(blocks[j]).value.0 == blocks[i].0;
      SameIdSameBlock(blocks, i, j);
    }
  }

  lemma SameIdSameBlock(blocks: Blocks, i: int, j: int)
    requires KeysDistinct(blocks, BlockId())
    requires 0 <= i < |blocks| && 0 <= j < |blocks| && blocks[i].0 == blocks[j].0
    ensures i == j
  {
    assert BlockId()(blocks[i]) == BlockId()(blocks[j]);
  }

  /** A heading3 block that yields a date: "M月D日" text, and a parent among the
      update-log parents when there are any. */
  predicate DatedHeading(bd: BlockData, near: set<string>) {
    bd.btype == Some("heading3") && ParseMdHeading(BlockText(bd)).Some?
    && (near == {} || ParentText(bd) in near)
  }

  /** When an update-log heading exists, only the heading3 blocks under one of the log
      headings' parents are dated; every dated heading carries "YYYY-MM-DD" built from its
      month and day and the inferred year. */
  lemma Heading3DatesFiltered(blocks: Blocks, nowSh: int, offset: int)
    requires KeysDistinct(blocks, BlockId())
    ensures var near := NearLogParents(blocks);
      var dates := Heading3Dates(blocks, near, nowSh, offset);
      (forall i | 0 <= i < |blocks| :: blocks[i].0 in dates <==> DatedHeading(blocks[i].1, near))
      && (forall i | 0 <= i < |blocks| && DatedHeading(blocks[i].1, near) ::
            var md := ParseMdHeading(BlockText(blocks[i].1)).value;
            dates[blocks[i].0] == DateString(InferYear(nowSh, offset, md.0, md.1), md.0, md.1))
      && (near != {} ==> forall i | 0 <= i < |blocks| && blocks[i].0 in dates :: ParentText(blocks[i].1) in near)
  {
    var near := NearLogParents(blocks);
    var f := Heading3DateOf(near, nowSh, offset);
    forall i | 0 <= i < |blocks|
      ensures (f(blocks[i]).Some? <==> DatedHeading(blocks[i].1, near))
      && (f(blocks[i]).Some? ==> f(blocks[i]).value.0 == blocks[i].0)
      && (DatedHeading(blocks[i].1, near) ==>
            var md := ParseMdHeading(BlockText(blocks[i].1)).value;
            f(blocks[i]).value.1 == DateString(InferYear(nowSh, offset, md.0, md.1), md.0, md.1))
    {
      Heading3DateOfMeaning(near, nowSh, offset, blocks[i]);
    }
    TabulateByIds(blocks, f);
  }

  /** One block's dated-heading entry. */
  lemma Heading3DateOfMeaning(near: set<string>, nowSh: int, offset: int, b: (string, BlockData))
    ensures var r := Heading3DateOf(near, nowSh, offset)(b);
      (r.Some? <==> DatedHeading(b.1, near))
      && (r.Some? ==> r.value.0 == b.0)
      && (DatedHeading(b.1, near) ==>
            var md := ParseMdHeading(BlockText(b.1)).value;
            r.value.1 == DateString(InferYear(nowSh, offset, md.0, md.1), md.0, md.1))
  {
  }

  /** Every trimmed, non-empty parent is in the parent map, and only those are. */
  lemma ParentMapEntries(blocks: Blocks)
    requires KeysDistinct(blocks, BlockId())
    ensures forall i | 0 <= i < |blocks| :: blocks[i].0 in ParentMap(blocks) <==> Trim(ParentText(blocks[i].1)) != ""
    ensures forall i | 0 <= i < |blocks| && Trim(ParentText(blocks[i].1)) != "" ::
      ParentMap(blocks)[blocks[i].0] == Trim(ParentText(blocks[i].1))
  {
    TabulateByIds(blocks, ParentOf());
  }

  // ----- nearestHeadingDate -----

  /** The hop bound of the parent walk. */
  const MAX_HOPS: nat := 20

  function Lookup(m: map<string, string>, k: string): Option<string> {
    if k in m then Some(m[k]) else None
  }

  /** The loop goes on while `cur` is a non-empty string. */
  predicate Live(cur: Option<string>) {
    cur.Some? && cur.value != ""
  }

  /** One hop up the parent links. */
  function Up(parents: map<string, string>, cur: Option<string>): Option<string> {
    if Live(cur) then Lookup(parents, cur.value) else None
  }

  /** `cur` after `n` hops. */
  function Hops(parents: map<string, string>, cur: Option<string>, n: nat): Option<string>
    decreases n
  {
    if n == 0 then cur else Hops(parents, Up(parents, cur), n - 1)
  }

  /** The walk from `cur` with `hops` hops already made. */
  function Walk(parents: map<string, string>, dates: map<string, string>, cur: Option<string>, hops: nat): Option<string>
    decreases MAX_HOPS - hops
  {
    if !Live(cur) || hops >= MAX_HOPS then None
    else if cur.value in dates then Some(dates[cur.value])
    else Walk(parents, dates, Up(parents, cur), hops + 1)
  }

  /** `nearestHeadingDate(blockId)` */
  function NearestSpec(parents: map<string, string>, dates: map<string, string>, blockId: string): Option<string> {
    Walk(parents, dates, Lookup(parents, blockId), 0)
  }

  /** The `n`-th ancestor is the first dated one the loop reaches. */
  predicate FirstDatedAt(parents: map<string, string>, dates: map<string, string>, cur: Option<string>, n: nat) {
    (forall m | 0 <= m < n :: Live(Hops(parents, cur, m)) && Hops(parents, cur, m).value !in dates)
    && Live(Hops(parents, cur, n)) && Hops(parents, cur, n).value in dates
  }

  lemma {:induction false} WalkFinds(parents: map<string, string>, dates: map<string, string>, cur: Option<string>, hops: nat)
    ensures Walk(parents, dates, cur, hops).Some? ==>
      exists n | 0 <= n && hops + n < MAX_HOPS :: FirstDatedAt(parents, dates, cur, n)
        && Walk(parents, dates, cur, hops) == Some(dates[Hops(parents, cur, n).value])
    ensures forall n | 0 <= n && hops + n < MAX_HOPS && FirstDatedAt(parents, dates, cur, n) ::
      Walk(parents, dates, cur, hops) == Some(dates[Hops(parents, cur, n).value])
    decreases MAX_HOPS - hops
  {
    if Live(cur) && hops < MAX_HOPS && cur.value !in dates {
      var up := Up(parents, cur);
      WalkFinds(parents, dates, up, hops + 1);
      forall m: nat ensures Hops(parents, cur, m + 1) == Hops(parents, up, m) {
      }
      if Walk(parents, dates, cur, hops).Some? {
        var n :| 0 <= n && hops + 1 + n < MAX_HOPS && FirstDatedAt(parents, dates, up, n)
          && Walk(parents, dates, up, hops + 1) == Some(dates[Hops(parents, up, n).value]);
        assert FirstDatedAt(parents, dates, cur, n + 1) by {
          forall m | 0 <= m < n + 1 ensures Live(Hops(parents, cur, m)) && Hops(parents, cur, m).value !in dates {
            if m > 0 { assert Hops(parents, cur, m) == Hops(parents, up, m - 1); }
          }
        }
      }
      forall n | 0 <= n && hops + n < MAX_HOPS && FirstDatedAt(parents, dates, cur, n)
        ensures Walk(parents, dates, cur, hops) == Some(dates[Hops(parents, cur, n).value])
      {
        assert n != 0;
        assert FirstDatedAt(parents, dates, up, n - 1) by {
          forall m | 0 <= m < n - 1 ensures Live(Hops(parents, up, m)) && Hops(parents, up, m).value !in dates {
            assert Hops(parents, cur, m + 1) == Hops(parents, up, m);
          }
        }
      }
    } else if Live(cur) && hops < MAX_HOPS {
      assert FirstDatedAt(parents, dates, cur, 0);
      forall n | 0 <= n && hops + n < MAX_HOPS && FirstDatedAt(parents, dates, cur, n)
        ensures Walk(parents, dates, cur, hops) == Some(dates[Hops(parents, cur, n).value])
      {
        FirstDatedUnique(parents, dates, cur, n, 0);
      }
    } else if hops < MAX_HOPS {
      forall n | 0 <= n && hops + n < MAX_HOPS ensures !FirstDatedAt(parents, dates, cur, n) {
        assert Hops(parents, cur, 0) == cur;
      }
    }
  }

  lemma FirstDatedUnique(parents: map<string, string>, dates: map<string, string>, cur: Option<string>, n: nat, n': nat)
    requires FirstDatedAt(parents, dates, cur, n) && FirstDatedAt(parents, dates, cur, n')
    ensures n == n'
  {
  }

  /** The walk returns the date of the closest dated ancestor within `MAX_HOPS` hops of
      the block's parent, and nothing when there is none. */
  lemma NearestIsClosest(parents: map<string, string>, dates: map<string, string>, blockId: string, d: string)
    ensures NearestSpec(parents, dates, blockId) == Some(d) <==>
      exists n | 0 <= n < MAX_HOPS :: FirstDatedAt(parents, dates, Lookup(parents, blockId), n)
        && d == dates[Hops(parents, Lookup(parents, blockId), n).value]
  {
    WalkFinds(parents, dates, Lookup(parents, blockId), 0);
  }

  /** The parent walk of `nearestHeadingDate`. */
  method NearestHeadingDate(parents: map<string, string>, dates: map<string, string>, blockId: string)
    returns (day: Option<string>)
    ensures day == NearestSpec(parents, dates, blockId)
  {
    var cur := Lookup(parents, blockId);
    var hops := 0;
    while Live(cur) && hops < MAX_HOPS
      invariant hops <= MAX_HOPS
      invariant Walk(parents, dates, cur, hops) == NearestSpec(parents, dates, blockId)
      decreases MAX_HOPS - hops
    {
      if cur.value in dates {
        return Some(dates[cur.value]);
      }
      cur := Lookup(parents, cur.value);
      hops := hops + 1;
    }
    return None;
  }

  // ----- the update entries -----

  /** A `WaytoagiUpdate`. */
  datatype Update = Update(date: string, title: string, url: string)

  /** `` `${date}::${title}` ``, the key both deduplications use. */
  function UpdateKey(): Update -> string {
    (u: Update) => u.date + "::" + u.title
  }

  /** The update an entry block yields: a bullet, text, to-do or ordered block under a
      dated heading, with a non-empty cleaned title. */
  function UpdateOf(parents: map<string, string>, dates: map<string, string>, pageUrl: string): ((string, BlockData)) -> Option<Update> {
    (b: (string, BlockData)) =>
      if !HasType(b.1, ENTRY_TYPES) then None
      else match NearestSpec(parents, dates, b.0)
        case None => None
        case Some(day) =>
          var title := Text.CleanUpdateTitle(BlockText(b.1));
          if day == "" || title == "" then None else Some(Update(day, title, pageUrl))
  }

  /** The candidates in block order, first of each key kept: what the last loop pushes. */
  function FirstUpdates(blocks: Blocks, f: ((string, BlockData)) -> Option<Update>): seq<Update> {
    FirstByKey(FilterMap(blocks, f), UpdateKey()).Values()
  }

  /** `extractWaytoagiRecentUpdates(blockMap, nowSh, pageUrl)` */
  function RecentUpdatesSpec(blocks: Blocks, nowSh: int, offset: int, pageUrl: string): seq<Update> {
    var near := NearLogParents(blocks);
    var dates := Heading3Dates(blocks, near, nowSh, offset);
    FirstUpdates(blocks, UpdateOf(ParentMap(blocks), dates, pageUrl))
  }

  /** The keys of a list of updates, in order. */
  function KeysOf(us: seq<Update>): seq<string> {
    MapSeq(us, UpdateKey())
  }

  /** Unique by key, and the first candidate with each key is kept. */
  lemma FirstUpdatesAreFirst(blocks: Blocks, f: ((string, BlockData)) -> Option<Update>)
    ensures KeysDistinct(FirstUpdates(blocks, f), UpdateKey())
    ensures forall j | 0 <= j < |FilterMap(blocks, f)| && FirstKeyAt(FilterMap(blocks, f), j, UpdateKey()) ::
      FilterMap(blocks, f)[j] in FirstUpdates(blocks, f)
  {
    var cands := FilterMap(blocks, f);
    var m := FirstByKey(cands, UpdateKey());
    var r := m.Values();
    FirstByKeyMembers(cands, UpdateKey());
    ValuesKeysDistinct(m, UpdateKey());
    forall j | 0 <= j < |cands| && FirstKeyAt(cands, j, UpdateKey()) ensures cands[j] in r {
      var key := UpdateKey()(cands[j]);
      assert key in m.entries;
      var k :| 0 <= k < |m.keys| && m.keys[k] == key;
      assert r[k] == cands[j];
    }
  }

  /** Each kept update is one a block yields. */
  lemma FirstUpdatesFrom(blocks: Blocks, f: ((string, BlockData)) -> Option<Update>)
    ensures forall k | 0 <= k < |FirstUpdates(blocks, f)| :: exists i | 0 <= i < |blocks| :: f(blocks[i]) == Some(FirstUpdates(blocks, f)[k])
  {
    var cands := FilterMap(blocks, f);
    var m := FirstByKey(cands, UpdateKey());
    var r := m.Values();
    FilterMapMembers(blocks, f);
    FirstByKeyMembers(cands, UpdateKey());
    forall k | 0 <= k < |r| ensures exists i | 0 <= i < |blocks| :: f(blocks[i]) == Some(r[k]) {
      var key := m.keys[k];
      FirstByKeyFrom(cands, UpdateKey(), key);
      var j0 :| 0 <= j0 < |cands| && UpdateKey()(cands[j0]) == key;
      var j := FirstWithKey(cands, UpdateKey(), j0);
      assert r[k] == cands[j];
    }
  }

  /** Every block's update has its key kept. */
  lemma FirstUpdatesComplete(blocks: Blocks, f: ((string, BlockData)) -> Option<Update>)
    ensures forall i | 0 <= i < |blocks| && f(blocks[i]).Some? :: UpdateKey()(f(blocks[i]).value) in KeysOf(FirstUpdates(blocks, f))
  {
    var cands := FilterMap(blocks, f);
    var m := FirstByKey(cands, UpdateKey());
    var r := m.Values();
    FilterMapMembers(blocks, f);
    FirstByKeyMembers(cands, UpdateKey());
    forall i | 0 <= i < |blocks| && f(blocks[i]).Some? ensures UpdateKey()(f(blocks[i]).value) in KeysOf(r) {
      var u := f(blocks[i]).value;
      var j :| 0 <= j < |cands| && cands[j] == u;
      var key := UpdateKey()(u);
      assert key in m.entries;
      var k :| 0 <= k < |m.keys| && m.keys[k] == key;
      assert KeysOf(r)[k] == key;
    }
  }

  /** The earliest element sharing the key of element `j`. */
  lemma {:induction false} FirstWithKey<T, K>(s: seq<T>, key: T -> K, j: nat) returns (i: nat)
    requires j < |s|
    ensures i <= j && key(s[i]) == key(s[j]) && FirstKeyAt(s, i, key)
    decreases j
  {
    if FirstKeyAt(s, j, key) {
      i := j;
    } else {
      var m :| 0 <= m < j && key(s[m]) == key(s[j]);
      i := FirstWithKey(s, key, m);
    }
  }

  /** What the extraction returns: distinct "date::title" keys, each update from an entry
      block under a dated heading, with a cleaned, non-empty title and the page's URL,
      and every such block's key among them. */
  lemma RecentUpdatesProperties(blocks: Blocks, nowSh: int, offset: int, pageUrl: string)
    ensures var r := RecentUpdatesSpec(blocks, nowSh, offset, pageUrl);
      KeysDistinct(r, UpdateKey())
      && (forall k | 0 <= k < |r| :: r[k].url == pageUrl && r[k].title != "" && r[k].date != ""
            && IsTrimmed(r[k].title) && Text.SingleSpaced(r[k].title))
  {
    var near := NearLogParents(blocks);
    var dates := Heading3Dates(blocks, near, nowSh, offset);
    var f := UpdateOf(ParentMap(blocks), dates, pageUrl);
    FirstUpdatesAreFirst(blocks, f);
    FirstUpdatesFrom(blocks, f);
    FirstUpdatesComplete(blocks, f);
    var r := FirstUpdates(blocks, f);
    forall k | 0 <= k < |r| ensures r[k].url == pageUrl && r[k].title != "" && r[k].date != ""
      && IsTrimmed(r[k].title) && Text.SingleSpaced(r[k].title)
    {
      var i :| 0 <= i < |blocks| && f(blocks[i]) == Some(r[k]);
    }
  }

  /** Each update comes from a block of an entry type whose nearest dated heading gives its
      date, and every entry block that yields an update has its key in the result. */
  lemma RecentUpdatesSources(blocks: Blocks, nowSh: int, offset: int, pageUrl: string)
    ensures var near := NearLogParents(blocks);
      var dates := Heading3Dates(blocks, near, nowSh, offset);
      var f := UpdateOf(ParentMap(blocks), dates, pageUrl);
      var r := RecentUpdatesSpec(blocks, nowSh, offset, pageUrl);
      (forall k | 0 <= k < |r| :: exists i | 0 <= i < |blocks| ::
         HasType(blocks[i].1, ENTRY_TYPES) && NearestSpec(ParentMap(blocks), dates, blocks[i].0) == Some(r[k].date)
         && r[k].title == Text.CleanUpdateTitle(BlockText(blocks[i].1)))
      && (forall i | 0 <= i < |blocks| && f(blocks[i]).Some? :: UpdateKey()(f(blocks[i]).value) in KeysOf(r))
  {
    var near := NearLogParents(blocks);
    var dates := Heading3Dates(blocks, near, nowSh, offset);
    var f := UpdateOf(ParentMap(blocks), dates, pageUrl);
    FirstUpdatesAreFirst(blocks, f);
    FirstUpdatesFrom(blocks, f);
    FirstUpdatesComplete(blocks, f);
    var r := FirstUpdates(blocks, f);
    forall k | 0 <= k < |r| ensures exists i | 0 <= i < |blocks| ::
         HasType(blocks[i].1, ENTRY_TYPES) && NearestSpec(ParentMap(blocks), dates, blocks[i].0) == Some(r[k].date)
         && r[k].title == Text.CleanUpdateTitle(BlockText(blocks[i].1))
    {
      var i :| 0 <= i < |blocks| && f(blocks[i]) == Some(r[k]);
    }
  }

  /** The last loop: the update each block yields (`entry`, the body up to the `seen`
      test) is pushed unless its key was seen. */
  method CollectUpdates(blocks: Blocks, entry: ((string, BlockData)) -> Option<Update>)
    returns (updates: seq<Update>)
    ensures updates == FirstUpdates(blocks, entry)
  {
    updates := [];
    var seen: set<string> := {};
    var i := 0;
    while i < |blocks|
      invariant 0 <= i <= |blocks|
      invariant updates == FirstByKey(FilterMap(blocks[..i], entry), UpdateKey()).Values()
      invariant seen == FirstByKey(FilterMap(blocks[..i], entry), UpdateKey()).entries.Keys
    {
      ghost var cands := FilterMap(blocks[..i], entry);
      ghost var m := FirstByKey(cands, UpdateKey());
      assert blocks[..i + 1][..i] == blocks[..i];
      var u := entry(blocks[i]);
      if u.Some? {
        assert FilterMap(blocks[..i + 1], entry) == cands + [u.value];
        FirstByKeySnoc(cands, u.value, UpdateKey());
        var key := u.value.date + "::" + u.value.title;
        assert key == UpdateKey()(u.value);
        if key !in seen {
          SetNewValues(m, key, u.value);
          seen := seen + {key};
          updates := updates + [u.value];
        }
      }
      i := i + 1;
    }
    assert blocks[..i] == blocks;
  }

  /** `extractWaytoagiRecentUpdates(blockMap, nowSh, pageUrl)`: the loops one after the
      other. The `ymByHeading2` loop is left out: its years are always overridden. */
  method ExtractRecentUpdates(blocks: Blocks, nowSh: int, offset: int, pageUrl: string)
    returns (updates: seq<Update>)
    ensures updates == RecentUpdatesSpec(blocks, nowSh, offset, pageUrl)
  {
    var near := CollectNearLogParents(blocks);
    var dates := BuildMap(blocks, Heading3DateOf(near, nowSh, offset));
    var parents := BuildMap(blocks, ParentOf());
    updates := CollectUpdates(blocks, UpdateOf(parents, dates, pageUrl));
  }

  // ----- fetchWaytoagiRecent7d -----

  const WINDOW_DAYS: int := 7
  const EMPTY_WARNING: string := "近7日未解析到更新条目"
  const FAILURE_WARNING: string := "WaytoAGI 近7日更新抓取失败"

  /** A `WaytoagiPayload`. */
  datatype Payload = Payload(
    generatedAt: Option<Dates.Stamp>, timezone: string, rootUrl: string, historyUrl: Option<string>,
    windowDays: int, latestDate: Option<string>, countToday: nat, updatesToday: seq<Update>,
    count7d: nat, updates7d: seq<Update>, warning: Option<string>, hasError: bool, error: Option<string>)

  /** A fetched page (or the message of the error fetching it). */
  type Page = Result<string>

  /** The block map of a page: its client state, then `decode`, which stands for
      `JSON.parse` and the `.data.block_map || {}` lookup (and fails as they would). */
  function PageBlocks(html: string, decode: string -> Result<Blocks>): Result<Blocks> {
    match ClientVarsSpec(html)
    case Err(e) => Err(e)
    case Ok(payload) => decode(payload)
  }

  /** The history page is read only when its URL is set and differs from the root page;
      any error reading it is ignored. */
  predicate UsesHistory(historyUrl: string, rootUrl: string) {
    historyUrl != "" && historyUrl != rootUrl
  }

  /** The updates of the root page, then those of the history page: the first error
      thrown outside the history `try`, or the list. */
  function GatheredUpdates(rootUrl: string, rootPage: Page, historyUrl: string, historyPage: Page,
                           decode: string -> Result<Blocks>, nowSh: int, offset: int): Result<seq<Update>> {
    match rootPage
    case Err(e) => Err(e)
    case Ok(rootHtml) =>
      match PageBlocks(rootHtml, decode)
      case Err(e) => Err(e)
      case Ok(rootBlocks) =>
        var updates := RecentUpdatesSpec(rootBlocks, nowSh, offset, rootUrl);
        if !UsesHistory(historyUrl, rootUrl) || historyPage.Err? then Ok(updates)
        else match PageBlocks(historyPage.value, decode)
          case Err(_) => Ok(updates)
          case Ok(historyBlocks) => Ok(updates + RecentUpdatesSpec(historyBlocks, nowSh, offset, historyUrl))
  }

  /** `u.date >= startDateStr && u.date <= endDateStr`, as string comparisons. */
  function InWindow(startDate: string, endDate: string): Update -> bool {
    (u: Update) => !LexLess(u.date, startDate) && !LexLess(endDate, u.date)
  }

  /** The comparator: date descending, then title ascending. */
  function UpdateBefore(): (Update, Update) -> bool {
    (a: Update, b: Update) => if a.date != b.date then LexLess(b.date, a.date) else LexLess(a.title, b.title)
  }

  function OnDate(date: string): Update -> bool {
    (u: Update) => u.date == date
  }

  /** The first and last day of the window: six days before now and now, as the UTC dates
      of the shifted clock `nowSh`. */
  function WindowStart(nowSh: int): string {
    Calendar.IsoDate(Calendar.AddDays(nowSh, -6))
  }

  function WindowEnd(nowSh: int): string {
    Calendar.IsoDate(nowSh)
  }

  /** `recent`: the deduplicated updates in the window, sorted. */
  function RecentSpec(updates: seq<Update>, nowSh: int): seq<Update> {
    WindowSorted(FirstByKey(updates, UpdateKey()).Values(), WindowStart(nowSh), WindowEnd(nowSh))
  }

  /** The updates dated from `startDate` to `endDate`, sorted. */
  function WindowSorted(us: seq<Update>, startDate: string, endDate: string): seq<Update> {
    SortBy(Filter(us, InWindow(startDate, endDate)), UpdateBefore())
  }

  /** `latestDate`: the first date of the sorted list. */
  function LatestDate(recent: seq<Update>): Option<string> {
    if |recent| > 0 then Some(recent[0].date) else None
  }

  /** `updatesToday`: the updates on the latest date, none when that is missing or "". */
  function UpdatesToday(recent: seq<Update>): seq<Update> {
    var latest := LatestDate(recent);
    if latest.Some? && latest.value != "" then Filter(recent, OnDate(latest.value)) else []
  }

  /** `fetchWaytoagiRecent7d(now)`. `nowSh` is `now` shifted so that its local reading is
      the time in `timezone`; `historyUrl` is what `extractHistoryUrl` finds on the root
      page, and the pages are what fetching the two URLs gave. */
  function Recent7dSpec(now: int, nowSh: int, offset: int, timezone: string, rootUrl: string, rootPage: Page,
                        historyUrl: string, historyPage: Page, decode: string -> Result<Blocks>): Payload {
    match GatheredUpdates(rootUrl, rootPage, historyUrl, historyPage, decode, nowSh, offset)
    case Err(e) =>
      Payload(Dates.ToIsoString(Some(now)), timezone, rootUrl, None, WINDOW_DAYS, None, 0, [], 0, [],
              Some(FAILURE_WARNING), true, Some(e))
    case Ok(updates) =>
      var recent := RecentSpec(updates, nowSh);
      var today := UpdatesToday(recent);
      Payload(Dates.ToIsoString(Some(now)), timezone, rootUrl, Some(historyUrl), WINDOW_DAYS, LatestDate(recent),
              |today|, today, |recent|, recent, if |recent| == 0 then Some(EMPTY_WARNING) else None, false, None)
  }

  lemma UpdateBeforeIsStrictOrder()
    ensures StrictOrder(UpdateBefore())
  {
    var before := UpdateBefore();
    forall a: Update, b: Update | before(a, b) ensures !before(b, a) {
      LexLessAsymmetric(a.date, b.date);
      LexLessAsymmetric(b.date, a.date);
      LexLessAsymmetric(a.title, b.title);
    }
    forall a: Update, b: Update, c: Update | before(a, b) && before(b, c) ensures before(a, c) {
      if a.date == b.date && b.date == c.date {
        LexLessTransitive(a.title, b.title, c.title);
      } else if a.date == b.date || b.date == c.date {
      } else {
        LexLessTransitive(c.date, b.date, a.date);
        if a.date == c.date {
          LexLessIrreflexive(a.date);
        }
      }
    }
  }

  /** The deduplication loop over the merged list. */
  method DedupUpdates(updates: seq<Update>) returns (m: OrderedMap<string, Update>)
    ensures m == FirstByKey(updates, UpdateKey())
  {
    m := Empty();
    var i := 0;
    while i < |updates|
      invariant 0 <= i <= |updates|
      invariant m == FirstByKey(updates[..i], UpdateKey())
    {
      FirstByKeySnoc(updates[..i], updates[i], UpdateKey());
      assert updates[..i + 1] == updates[..i] + [updates[i]];
      var item := updates[i];
      var key := item.date + "::" + item.title;
      assert key == UpdateKey()(item);
      if key !in m.entries {
        m := m.Set(key, item);
      }
      i := i + 1;
    }
    assert updates[..i] == updates;
  }

  /** The client state and block map of a page, as the method computes them. */
  method ReadPage(html: string, decode: string -> Result<Blocks>) returns (r: Result<Blocks>)
    ensures r == PageBlocks(html, decode)
  {
    var vars := ExtractFeishuClientVars(html);
    if vars.Err? {
      return Err(vars.message);
    }
    r := decode(vars.value);
  }

  /** The body of the `try` up to the merged list. */
  method GatherUpdates(rootUrl: string, rootPage: Page, historyUrl: string, historyPage: Page,
                       decode: string -> Result<Blocks>, nowSh: int, offset: int)
    returns (r: Result<seq<Update>>)
    ensures r == GatheredUpdates(rootUrl, rootPage, historyUrl, historyPage, decode, nowSh, offset)
  {
    if rootPage.Err? {
      return Err(rootPage.message);
    }
    var rootBlocks := ReadPage(rootPage.value, decode);
    if rootBlocks.Err? {
      return Err(rootBlocks.message);
    }
    var updates := ExtractRecentUpdates(rootBlocks.value, nowSh, offset, rootUrl);
    if UsesHistory(historyUrl, rootUrl) && historyPage.Ok? {
      var historyBlocks := ReadPage(historyPage.value, decode);
      if historyBlocks.Ok? {
        var more := ExtractRecentUpdates(historyBlocks.value, nowSh, offset, historyUrl);
        updates := updates + more;
      }
    }
    return Ok(updates);
  }

  /** `fetchWaytoagiRecent7d(now)` with its `try`/`catch`. */
  method FetchRecent7d(now: int, nowSh: int, offset: int, timezone: string, rootUrl: string, rootPage: Page,
                       historyUrl: string, historyPage: Page, decode: string -> Result<Blocks>)
    returns (p: Payload)
    ensures p == Recent7dSpec(now, nowSh, offset, timezone, rootUrl, rootPage, historyUrl, historyPage, decode)
  {
    var generatedAt := Dates.ToIsoString(Some(now));
    var gathered := GatherUpdates(rootUrl, rootPage, historyUrl, historyPage, decode, nowSh, offset);
    if gathered.Err? {
      return Payload(generatedAt, timezone, rootUrl, None, WINDOW_DAYS, None, 0, [], 0, [],
                     Some(FAILURE_WARNING), true, Some(gathered.message));
    }
    var dedup := DedupUpdates(gathered.value);
    var startDate := WindowStart(nowSh);
    var endDate := WindowEnd(nowSh);
    var recent := Filter(dedup.Values(), InWindow(startDate, endDate));
    recent := SortBy(recent, UpdateBefore());
    var latestDate := if |recent| > 0 then Some(recent[0].date) else None;
    var updatesToday := if latestDate.Some? && latestDate.value != "" then Filter(recent, OnDate(latestDate.value)) else [];
    p := Payload(generatedAt, timezone, rootUrl, Some(historyUrl), WINDOW_DAYS, latestDate,
                 |updatesToday|, updatesToday, |recent|, recent,
                 if |recent| == 0 then Some(EMPTY_WARNING) else None, false, None);
  }

  /** An error outside the history `try` gives the failure payload: the error flag and
      message, the failure warning, no history URL and empty lists. */
  lemma Recent7dOnError(now: int, nowSh: int, offset: int, timezone: string, rootUrl: string, rootPage: Page,
                        historyUrl: string, historyPage: Page, decode: string -> Result<Blocks>)
    requires GatheredUpdates(rootUrl, rootPage, historyUrl, historyPage, decode, nowSh, offset).Err?
    ensures var p := Recent7dSpec(now, nowSh, offset, timezone, rootUrl, rootPage, historyUrl, historyPage, decode);
      p.hasError && p.error == Some(GatheredUpdates(rootUrl, rootPage, historyUrl, historyPage, decode, nowSh, offset).message)
      && p.warning == Some(FAILURE_WARNING) && p.historyUrl.None? && p.latestDate.None?
      && p.updates7d == [] && p.updatesToday == [] && p.count7d == 0 && p.countToday == 0
      && p.windowDays == 7 && p.rootUrl == rootUrl && p.generatedAt == Some(Dates.At(now))
  {
  }

  /** Reading the history page never makes the digest fail, and what the root page yields
      comes first in the merged list. */
  lemma HistoryErrorsIgnored(rootUrl: string, rootPage: Page, historyUrl: string, historyPage: Page,
                             decode: string -> Result<Blocks>, nowSh: int, offset: int)
    requires rootPage.Ok? && PageBlocks(rootPage.value, decode).Ok?
    ensures var g := GatheredUpdates(rootUrl, rootPage, historyUrl, historyPage, decode, nowSh, offset);
      var rootUpdates := RecentUpdatesSpec(PageBlocks(rootPage.value, decode).value, nowSh, offset, rootUrl);
      g.Ok? && |rootUpdates| <= |g.value| && g.value[..|rootUpdates|] == rootUpdates
      && (!UsesHistory(historyUrl, rootUrl) ==> g.value == rootUpdates)
  {
  }

  /** The seven-day list: exactly the first update of each key whose date lies in the
      window, with distinct keys, sorted by date descending and then title. */
  lemma Recent7dList(updates: seq<Update>, nowSh: int)
    ensures var recent := RecentSpec(updates, nowSh);
      var deduped := FirstByKey(updates, UpdateKey()).Values();
      (forall u :: u in recent <==> u in deduped && InWindow(WindowStart(nowSh), WindowEnd(nowSh))(u))
      && (forall k | 0 <= k < |recent| ::
            !LexLess(recent[k].date, WindowStart(nowSh)) && !LexLess(WindowEnd(nowSh), recent[k].date))
      && KeysDistinct(recent, UpdateKey())
      && SortedBy(recent, UpdateBefore())
  {
    FirstByKeyMembers(updates, UpdateKey());
    ValuesKeysDistinct(FirstByKey(updates, UpdateKey()), UpdateKey());
    WindowSortedProperties(FirstByKey(updates, UpdateKey()).Values(), WindowStart(nowSh), WindowEnd(nowSh));
  }

  lemma WindowSortedProperties(us: seq<Update>, startDate: string, endDate: string)
    requires KeysDistinct(us, UpdateKey())
    ensures var recent := WindowSorted(us, startDate, endDate);
      (forall u :: u in recent <==> u in us && InWindow(startDate, endDate)(u))
      && (forall k | 0 <= k < |recent| :: !LexLess(recent[k].date, startDate) && !LexLess(endDate, recent[k].date))
      && KeysDistinct(recent, UpdateKey())
      && SortedBy(recent, UpdateBefore())
  {
    var inWindow := InWindow(startDate, endDate);
    var kept := Filter(us, inWindow);
    var recent := WindowSorted(us, startDate, endDate);
    FilterComplete(us, inWindow);
    forall u ensures u in recent <==> u in kept {
      SortByMembers(kept, UpdateBefore(), u);
    }
    forall k | 0 <= k < |recent| ensures inWindow(recent[k]) {
      assert recent[k] in kept;
    }
    FilterKeysDistinct(us, inWindow, UpdateKey());
    PermutationKeysDistinct(kept, recent, UpdateKey());
    UpdateBeforeIsStrictOrder();
    SortBySorted(kept, UpdateBefore());
  }

  /** Filtering keeps keys distinct. */
  lemma {:induction false} FilterKeysDistinct<T, K>(s: seq<T>, p: T -> bool, key: T -> K)
    requires KeysDistinct(s, key)
    ensures KeysDistinct(Filter(s, p), key)
    decreases |s|
  {
    if s != [] {
      var init := s[..|s| - 1];
      var x := s[|s| - 1];
      assert KeysDistinct(init, key) by {
        forall i, j | 0 <= i < j < |init| ensures key(init[i]) != key(init[j]) {
          assert init[i] == s[i] && init[j] == s[j];
        }
      }
      FilterKeysDistinct(init, p, key);
      assert s == init + [x];
      FilterSnoc(init, x, p);
      var f := Filter(init, p);
      if p(x) {
        forall i | 0 <= i < |f| ensures key(f[i]) != key(x) {
          var j :| 0 <= j < |init| && init[j] == f[i];
          assert s[j] == f[i];
        }
        var r := f + [x];
        forall i, j | 0 <= i < j < |r| ensures key(r[i]) != key(r[j]) {
          if j < |f| { assert r[i] == f[i] && r[j] == f[j]; }
        }
      }
    }
  }

  /** The head of a sorted list: its first date is one no date in the list exceeds, and
      `UpdatesToday` holds exactly the updates on that date (none when it is ""). */
  lemma SortedHead(recent: seq<Update>)
    requires SortedBy(recent, UpdateBefore())
    ensures LatestDate(recent).None? <==> recent == []
    ensures LatestDate(recent).Some? ==> forall k | 0 <= k < |recent| :: !LexLess(LatestDate(recent).value, recent[k].date)
    ensures forall k | 0 <= k < |UpdatesToday(recent)| ::
      UpdatesToday(recent)[k] in recent && Some(UpdatesToday(recent)[k].date) == LatestDate(recent)
    ensures LatestDate(recent).Some? && LatestDate(recent).value != "" ==>
      forall k | 0 <= k < |recent| && recent[k].date == LatestDate(recent).value :: recent[k] in UpdatesToday(recent)
  {
    if recent != [] {
      var latest := recent[0].date;
      forall k | 0 <= k < |recent| ensures !LexLess(latest, recent[k].date) {
        if k > 0 {
          assert !UpdateBefore()(recent[k], recent[0]);
          if recent[k].date == latest { LexLessIrreflexive(latest); }
        } else {
          LexLessIrreflexive(latest);
        }
      }
      FilterComplete(recent, OnDate(latest));
    }
  }

  /** On success: no error, the history URL, the seven-day list with its head as
      `SortedHead` describes, the counts are the lengths and the warning marks an empty
      list. */
  lemma Recent7dOnSuccess(now: int, nowSh: int, offset: int, timezone: string, rootUrl: string, rootPage: Page,
                          historyUrl: string, historyPage: Page, decode: string -> Result<Blocks>)
    requires GatheredUpdates(rootUrl, rootPage, historyUrl, historyPage, decode, nowSh, offset).Ok?
    ensures var p := Recent7dSpec(now, nowSh, offset, timezone, rootUrl, rootPage, historyUrl, historyPage, decode);
      var recent := RecentSpec(GatheredUpdates(rootUrl, rootPage, historyUrl, historyPage, decode, nowSh, offset).value, nowSh);
      !p.hasError && p.error.None? && p.historyUrl == Some(historyUrl)
      && p.updates7d == recent && SortedBy(recent, UpdateBefore())
      && p.latestDate == LatestDate(recent) && p.updatesToday == UpdatesToday(recent)
      && p.count7d == |p.updates7d| && p.countToday == |p.updatesToday|
      && (p.warning == Some(EMPTY_WARNING) <==> recent == []) && (p.warning.None? <==> recent != [])
  {
    var us := GatheredUpdates(rootUrl, rootPage, historyUrl, historyPage, decode, nowSh, offset).value;
    Recent7dList(us, nowSh);
  }
}
