/** `parse_id_list`: the id lists the motion test bench accepts, such as
    "1-6" or "1,3,5-7", and Python's `int()` and `str.split` as it uses them. */
module IdList {
  import opened PyBase
  import opened ActionNames

  // ---------------------------------------------------------------------
  // `int()` on a string, and `str()` of an int

  predicate IsDigit(c: char)
  {
    '0' <= c <= '9'
  }

  function DigitOf(c: char): (d: nat)
    requires IsDigit(c)
    ensures d < 10
  {
    c as int - '0' as int
  }

  function DigitChar(d: nat): (c: char)
    requires d < 10
    ensures IsDigit(c) && DigitOf(c) == d
  {
    ('0' as int + d) as char
  }

  /** The number a run of base-10 digits spells, as `int()` reads it:
      ASCII digits, with a single underscore allowed between two digits;
      None for anything else. */
  function RunValue(d: string): (v: Option<nat>)
    ensures v.Some? ==> |d| > 0 && IsDigit(d[0]) && IsDigit(d[|d| - 1])
    decreases |d|
  {
    if |d| == 0 || !IsDigit(d[|d| - 1]) then None
    else if |d| == 1 then Some(DigitOf(d[0]))
    else
      var n := |d| - 1;
      var front := if d[n - 1] == '_' then d[..n - 1] else d[..n];
      var v := RunValue(front);
      if v.None? then None else Some(v.value * 10 + DigitOf(d[n]))
  }

  /** `int(s)`: blanks around, then what `IntOf` accepts. */
  function ParseInt(s: string): (r: Result<int>)
  {
    IntOf(Strip(s))
  }

  /** `int()` on a stripped string: an optional sign, then the digits;
      anything else raises ValueError. */
  function IntOf(t: string): (r: Result<int>)
    ensures r.Raised? ==> r.error == ValueError
  {
    var signed := |t| > 0 && (t[0] == '-' || t[0] == '+');
    var body := if signed then t[1..] else t;
    var v := RunValue(body);
    if v.None? then Raised(ValueError)
    else if signed && t[0] == '-' then Ok(-(v.value as int))
    else Ok(v.value)
  }

  /** `str(n)` for n >= 0. */
  function ShowNat(n: nat): (s: string)
    ensures |s| > 0 && forall i | 0 <= i < |s| :: IsDigit(s[i])
    decreases n
  {
    if n < 10 then [DigitChar(n)] else ShowNat(n / 10) + [DigitChar(n % 10)]
  }

  /** `str(n)` */
  function Show(n: int): string
  {
    if n < 0 then "-" + ShowNat(-n) else ShowNat(n)
  }

  lemma {:induction false} ShowNatValue(n: nat)
    ensures RunValue(ShowNat(n)) == Some(n)
    decreases n
  {
    var s := ShowNat(n);
    if n >= 10 {
      ShowNatValue(n / 10);
      assert s[..|s| - 1] == ShowNat(n / 10);
      assert IsDigit(s[|s| - 2]);
    }
  }

  lemma IntOfShowNat(m: nat)
    ensures IntOf(ShowNat(m)) == Ok(m)
  {
    ShowNatValue(m);
  }

  lemma IntOfShowNeg(m: nat)
    ensures IntOf("-" + ShowNat(m)) == Ok(-(m as int))
  {
    ShowNatValue(m);
    assert ("-" + ShowNat(m))[1..] == ShowNat(m);
  }

  /** `int(str(n)) == n` */
  lemma ParseShow(n: int)
    ensures ParseInt(Show(n)) == Ok(n)
  {
    StripKeeps(Show(n));
    if n < 0 {
      IntOfShowNeg(-n);
    } else {
      IntOfShowNat(n);
    }
  }

  /** `int()` ignores blanks around its argument. */
  lemma ParseIntPadded(pre: string, s: string, post: string)
    requires AllSpace(pre) && AllSpace(post)
    ensures ParseInt(pre + s + post) == ParseInt(s)
  {
    StripPadded(pre, s, post);
  }

  // ---------------------------------------------------------------------
  // `str.split`

  /** `s.split(c)`: the pieces between the separators, in order. */
  function Split(s: string, c: char): (parts: seq<string>)
    ensures |parts| >= 1 && forall i | 0 <= i < |parts| :: c !in parts[i]
    decreases |s|
  {
    if |s| == 0 then [""]
    else
      var r := Split(s[1..], c);
      if s[0] == c then [""] + r else [[s[0]] + r[0]] + r[1..]
  }

  /** `c.join(parts)` */
  function Join(parts: seq<string>, c: char): string
    requires |parts| >= 1
    decreases |parts|
  {
    if |parts| == 1 then parts[0] else parts[0] + [c] + Join(parts[1..], c)
  }

  /** Joining the pieces gives the string back. */
  lemma {:induction false} JoinSplit(s: string, c: char)
    ensures Join(Split(s, c), c) == s
    decreases |s|
  {
    if |s| > 0 {
      var r := Split(s[1..], c);
      JoinSplit(s[1..], c);
      if s[0] == c {
        assert ([""] + r)[1..] == r;
      } else if |r| > 1 {
        assert ([[s[0]] + r[0]] + r[1..])[1..] == r[1..];
      }
    }
  }

  /** A separator after a piece free of it cuts exactly there. */
  lemma {:induction false} SplitAfter(a: string, rest: string, c: char)
    requires c !in a
    ensures Split(a + [c] + rest, c) == [a] + Split(rest, c)
    decreases |a|
  {
    if |a| == 0 {
      assert a + [c] + rest == [c] + rest;
      assert ([c] + rest)[1..] == rest;
    } else {
      assert (a + [c] + rest)[1..] == a[1..] + [c] + rest;
      SplitAfter(a[1..], rest, c);
      assert [a[0]] + a[1..] == a;
    }
  }

  /** A string without the separator is one piece. */
  lemma {:induction false} SplitNone(a: string, c: char)
    requires c !in a
    ensures Split(a, c) == [a]
    decreases |a|
  {
    if |a| > 0 {
      SplitNone(a[1..], c);
      assert [a[0]] + a[1..] == a;
    }
  }

  /** Splitting the joined pieces gives the pieces back. */
  lemma {:induction false} SplitJoin(parts: seq<string>, c: char)
    requires |parts| >= 1 && forall i | 0 <= i < |parts| :: c !in parts[i]
    ensures Split(Join(parts, c), c) == parts
    decreases |parts|
  {
    if |parts| == 1 {
      SplitNone(parts[0], c);
    } else {
      SplitJoin(parts[1..], c);
      SplitAfter(parts[0], Join(parts[1..], c), c);
      assert [parts[0]] + parts[1..] == parts;
    }
  }

  /** The place of the first c in s. */
  function FirstIndex(s: string, c: char): (k: nat)
    requires c in s
    ensures k < |s| && s[k] == c && c !in s[..k]
  {
    if s[0] == c then 0
    else
      var k := FirstIndex(s[1..], c) + 1;
      assert s[..k] == [s[0]] + s[1..][..k - 1];
      k
  }

  // ---------------------------------------------------------------------
  // The parser

  /** `list(range(a, b + 1))`: a to b inclusive, empty when a > b. */
  function Range(a: int, b: int): (r: seq<int>)
    ensures |r| == Max(0, b - a + 1) && forall i | 0 <= i < |r| :: r[i] == a + i
    ensures a > b ==> r == []
  {
    seq(Max(0, b - a + 1), i => a + i)
  }

  /** `a, b = t.split('-', 1)` and the range between `int(a)` and `int(b)`. */
  function RangeOf(t: string): Result<seq<int>>
    requires '-' in t
  {
    var k := FirstIndex(t, '-');
    var a := ParseInt(t[..k]);
    if a.Raised? then Raised(a.error)
    else
      var b := ParseInt(t[k + 1..]);
      if b.Raised? then Raised(b.error) else Ok(Range(a.value, b.value))
  }

  /** The ids one stripped, non-empty comma part names. */
  function PartIds(part: string): Result<seq<int>>
  {
    if '-' in part then RangeOf(part)
    else
      var n := ParseInt(part);
      if n.Raised? then Raised(n.error) else Ok([n.value])
  }

  /** Two results one after the other: the ids concatenate, and the
      first exception wins. */
  function Append(a: Result<seq<int>>, b: Result<seq<int>>): Result<seq<int>>
  {
    if a.Raised? then a else if b.Raised? then b else Ok(a.value + b.value)
  }

  lemma AppendAssoc(a: Result<seq<int>>, b: Result<seq<int>>, c: Result<seq<int>>)
    ensures Append(Append(a, b), c) == Append(a, Append(b, c))
  {
    if a.Ok? && b.Ok? && c.Ok? {
      assert a.value + b.value + c.value == a.value + (b.value + c.value);
    }
  }

  /** One comma part: stripped, a blank one names no ids. */
  function PartResult(part: string): Result<seq<int>>
  {
    var p := Strip(part);
    if |p| == 0 then Ok([]) else PartIds(p)
  }

  /** The ids of the comma parts in order; the first part that raises ends
      the parse. */
  function PartsIds(parts: seq<string>): Result<seq<int>>
    decreases |parts|
  {
    if |parts| == 0 then Ok([])
    else Append(PartsIds(parts[..|parts| - 1]), PartResult(parts[|parts| - 1]))
  }

  /** What `parse_id_list(s)` returns or raises. */
  function IdListOf(s: string): Result<seq<int>>
  {
    var t := Strip(s);
    if |t| == 0 then Ok(Range(1, 25))
    else if '-' in t && ',' !in t then RangeOf(t)
    else PartsIds(Split(t, ','))
  }

  /** `parse_id_list` */
  method ParseIdList(s: string) returns (r: Result<seq<int>>)
    ensures r == IdListOf(s)
  {
    var t := Strip(s);
    if |t| == 0 {
      return Ok(Range(1, 25));
    }
    if '-' in t && ',' !in t {
      return RangeOf(t);
    }
    var parts := Split(t, ',');
    var out := [];
    var i := 0;
    while i < |parts|
      invariant 0 <= i <= |parts|
      invariant PartsIds(parts[..i]) == Ok(out)
    {
      ghost var step := PartResult(parts[i]);
      ghost var prev := out;
      PartsSnoc(parts, i);
      var part := Strip(parts[i]);
      if |part| > 0 {
        if '-' in part {
          var ids := RangeOf(part);
          assert step == ids;
          if ids.Raised? {
            PrefixRaised(parts, i + 1);
            return Raised(ids.error);
          }
          out := out + ids.value;
        } else {
          var n := ParseInt(part);
          assert step == if n.Raised? then Raised(n.error) else Ok([n.value]);
          if n.Raised? {
            PrefixRaised(parts, i + 1);
            return Raised(n.error);
          }
          out := out + [n.value];
        }
      } else {
        AppendNothing(Ok(out));
      }
      assert Append(Ok(prev), step) == Ok(out);
      i := i + 1;
    }
    assert parts[..i] == parts;
    r := Ok(out);
  }

  /** The parts up to i + 1 are those up to i and then part i. */
  lemma PartsSnoc(parts: seq<string>, i: nat)
    requires i < |parts|
    ensures PartsIds(parts[..i + 1]) == Append(PartsIds(parts[..i]), PartResult(parts[i]))
  {
    assert parts[..i + 1][..i] == parts[..i];
  }

  /** Once a part raises, the parts after it are never parsed. */
  lemma PrefixRaised(parts: seq<string>, k: nat)
    requires k <= |parts| && PartsIds(parts[..k]).Raised?
    ensures PartsIds(parts) == PartsIds(parts[..k])
  {
    PartsAppend(parts[..k], parts[k..]);
    assert parts[..k] + parts[k..] == parts;
  }

  // ---------------------------------------------------------------------
  // What the parser promises

  /** An empty or blank string names servos 1 to 25. */
  lemma BlankIsDefault(s: string)
    requires AllSpace(s)
    ensures IdListOf(s).Ok? && IdListOf(s).value == seq(25, i => i + 1)
  {
    StripEmpty(s);
  }

  /** Any other string is parsed, not defaulted. */
  lemma NonBlankIsParsed(s: string)
    requires !AllSpace(s)
    ensures IdListOf(s) == if '-' in Strip(s) && ',' !in Strip(s) then RangeOf(Strip(s))
      else PartsIds(Split(Strip(s), ','))
  {
    StripEmpty(s);
  }

  /** `split('-', 1)` cuts at the first dash. */
  lemma RangeOfCut(x: string, y: string)
    requires '-' !in x
    ensures var a := ParseInt(x); var b := ParseInt(y);
      RangeOf(x + ['-'] + y) ==
        if a.Raised? then Raised(a.error) else if b.Raised? then Raised(b.error) else Ok(Range(a.value, b.value))
  {
    var t := x + ['-'] + y;
    var k := FirstIndex(t, '-');
    assert t[|x|] == '-' && t[..|x|] == x;
    assert k == |x| by {
      assert forall i | 0 <= i < |x| :: t[i] == x[i];
    }
    assert t[k + 1..] == y;
  }

  /** A stripped list with a dash and no comma is one range. */
  lemma DashOnly(t: string)
    requires Strip(t) == t && |t| > 0 && '-' in t && ',' !in t
    ensures IdListOf(t) == RangeOf(t)
  {
  }

  predicate Digits(s: string)
  {
    |s| > 0 && forall i | 0 <= i < |s| :: IsDigit(s[i])
  }

  /** Digit strings have no blanks, dashes or commas. */
  lemma DashShape(x: string, y: string)
    requires Digits(x) && Digits(y)
    ensures var t := x + ['-'] + y;
      Strip(t) == t && |t| > 0 && '-' in t && ',' !in t && '-' !in x && Strip(x) == x && Strip(y) == y
  {
    var t := x + ['-'] + y;
    assert '-' !in x && ',' !in x && ',' !in y;
    assert t[0] == x[0] && t[|t| - 1] == y[|y| - 1] && t[|x|] == '-';
    StripKeeps(t);
    StripKeeps(x);
    StripKeeps(y);
  }

  /** Two digit strings joined by a dash parse as the range between their values. */
  lemma DigitsRange(x: string, y: string, a: nat, b: nat)
    requires Digits(x) && Digits(y) && IntOf(x) == Ok(a) && IntOf(y) == Ok(b)
    ensures IdListOf(x + ['-'] + y) == Ok(Range(a, b))
  {
    DashShape(x, y);
    DashOnly(x + ['-'] + y);
    RangeOfCut(x, y);
  }

  /** "a-b" names a, a+1, ..., b, and nothing when a > b. */
  lemma SingleRange(a: nat, b: nat)
    ensures IdListOf(ShowNat(a) + ['-'] + ShowNat(b)) == Ok(Range(a, b))
  {
    IntOfShowNat(a);
    IntOfShowNat(b);
    DigitsRange(ShowNat(a), ShowNat(b), a, b);
  }

  /** Parts parsed one after another: the ids concatenate, and an
      exception in the first half wins. */
  lemma {:induction false} PartsAppend(ps: seq<string>, qs: seq<string>)
    ensures PartsIds(ps + qs) == Append(PartsIds(ps), PartsIds(qs))
    decreases |qs|
  {
    if |qs| == 0 {
      assert ps + qs == ps;
      AppendNothing(PartsIds(ps));
    } else {
      var n := |qs| - 1;
      assert (ps + qs)[..|ps + qs| - 1] == ps + qs[..n];
      assert (ps + qs)[|ps + qs| - 1] == qs[n];
      PartsAppend(ps, qs[..n]);
      AppendAssoc(PartsIds(ps), PartsIds(qs[..n]), PartResult(qs[n]));
    }
  }

  lemma AppendNothing(a: Result<seq<int>>)
    ensures Append(a, Ok([])) == a
  {
    if a.Ok? {
      assert a.value + [] == a.value;
    }
  }

  /** A blank comma part changes nothing. */
  lemma BlankPartSkipped(ps: seq<string>, blank: string, qs: seq<string>)
    requires AllSpace(blank)
    ensures PartsIds(ps + [blank] + qs) == PartsIds(ps + qs)
  {
    StripEmpty(blank);
    assert [blank][..0] == [];
    assert PartResult(blank) == Ok([]);
    AppendNothing(Ok([]));
    assert PartsIds([blank]) == Append(PartsIds([]), PartResult(blank));
    PartsAppend(ps, [blank]);
    AppendNothing(PartsIds(ps));
    PartsAppend(ps + [blank], qs);
    PartsAppend(ps, qs);
  }

  /** The decimal forms of ids separated by commas. */
  function Format(ids: seq<nat>): (parts: seq<string>)
    ensures |parts| == |ids| && forall i | 0 <= i < |ids| :: parts[i] == ShowNat(ids[i])
  {
    seq(|ids|, i requires 0 <= i < |ids| => ShowNat(ids[i]))
  }

  lemma SnocLast<T>(s: seq<T>)
    requires |s| > 0
    ensures s[..|s| - 1] + [s[|s| - 1]] == s
  {
  }

  /** The decimal form of an id is a part naming just that id. */
  lemma PartOfShowNat(m: nat)
    ensures PartResult(ShowNat(m)) == Ok([m])
  {
    StripKeeps(ShowNat(m));
    IntOfShowNat(m);
    assert '-' !in ShowNat(m);
  }

  lemma {:induction false} FormatParts(ids: seq<nat>)
    ensures PartsIds(Format(ids)) == Ok(ids)
    decreases |ids|
  {
    if |ids| > 0 {
      var n := |ids| - 1;
      var f := Format(ids);
      assert f[..n] == Format(ids[..n]);
      assert f[n] == ShowNat(ids[n]);
      FormatParts(ids[..n]);
      PartOfShowNat(ids[n]);
      assert PartsIds(f) == Append(PartsIds(f[..n]), PartResult(f[n]));
      SnocLast(ids);
    }
  }

  /** Ids written out as "i,j,k" parse back to the same ids in the same order. */
  lemma ListRoundTrip(ids: seq<nat>)
    requires |ids| > 0
    ensures IdListOf(Join(Format(ids), ',')) == Ok(ids)
  {
    var parts := Format(ids);
    var s := Join(parts, ',');
    JoinFormatted(parts);
    StripKeeps(s);
    SplitJoin(parts, ',');
    FormatParts(ids);
    if ',' !in s {
      assert '-' !in s;
    }
  }

  /** A joined list of decimal forms is digits and commas only, and begins
      and ends with a digit. */
  lemma {:induction false} JoinFormatted(parts: seq<string>)
    requires |parts| >= 1
    requires forall i | 0 <= i < |parts| :: |parts[i]| > 0 && forall j | 0 <= j < |parts[i]| :: IsDigit(parts[i][j])
    ensures var s := Join(parts, ',');
      |s| > 0 && IsDigit(s[0]) && IsDigit(s[|s| - 1]) && (forall i | 0 <= i < |s| :: IsDigit(s[i]) || s[i] == ',')
      && (',' !in s ==> |parts| == 1)
    decreases |parts|
  {
    if |parts| > 1 {
      JoinFormatted(parts[1..]);
      var s := Join(parts, ',');
      assert s[|parts[0]|] == ',';
    }
  }
}
