/** The file names of archived chunks, and the range a reader recovers from them. */
module ArchiveNames {
  import opened Basics

  const TEN_DIGITS: nat := 10_000_000_000

  datatype Kind = Data | Index | DataTemp | IndexTemp

  datatype FileName = FileName(first: nat, last: nat, kind: Kind)

  // ----- decimal numbers -----

  function Digit(d: nat): char
    requires d < 10
  {
    (48 + d) as char
  }

  predicate IsDigit(c: char) {
    '0' <= c <= '9'
  }

  predicate AllDigits(s: string) {
    forall i | 0 <= i < |s| :: IsDigit(s[i])
  }

  function Digits(n: nat): string {
    if n < 10 then [Digit(n)] else Digits(n / 10) + [Digit(n % 10)]
  }

  function Value(s: string): nat
    requires AllDigits(s)
  {
    if s == [] then 0 else Value(s[..|s| - 1]) * 10 + (s[|s| - 1] as int - 48)
  }

  function Zeros(count: nat): string {
    seq(count, i => '0')
  }

  /** The format `{:010}`: at least ten digits, padded with zeros on the left. */
  function Padded(n: nat): string {
    var digits := Digits(n);
    if |digits| >= 10 then digits else Zeros(10 - |digits|) + digits
  }

  function Power10(k: nat): nat {
    if k == 0 then 1 else 10 * Power10(k - 1)
  }

  lemma {:induction false} ValueOfDigits(n: nat)
    ensures AllDigits(Digits(n)) && Value(Digits(n)) == n
  {
    if n < 10 {
      assert Digits(n)[..0] == [];
    } else {
      ValueOfDigits(n / 10);
      assert Digits(n)[..|Digits(n / 10)|] == Digits(n / 10);
    }
  }

  lemma {:induction false} DigitCount(n: nat, k: nat)
    requires k >= 1
    ensures |Digits(n)| <= k <==> n < Power10(k)
  {
    if n >= 10 {
      if k == 1 {
        assert Power10(1) == 10 * Power10(0);
        assert |Digits(n / 10)| >= 1;
      } else {
        DigitCount(n / 10, k - 1);
        assert Power10(k) == 10 * Power10(k - 1);
      }
    } else {
      assert Power10(k) >= 10 by { PowersGrow(k); }
    }
  }

  lemma {:induction false} PowersGrow(k: nat)
    requires k >= 1
    ensures Power10(k) >= 10
  {
    if k <= 1 {
    } else {
      PowersGrow(k - 1);
    }
  }

  lemma {:induction false} ValueOfZeros(count: nat, s: string)
    requires AllDigits(s)
    ensures AllDigits(Zeros(count) + s) && Value(Zeros(count) + s) == Value(s)
  {
    if s != [] {
      var init := s[..|s| - 1];
      ValueOfZeros(count, init);
      assert (Zeros(count) + s)[..count + |init|] == Zeros(count) + init;
    } else if count > 0 {
      ValueOfZeros(count - 1, s);
      assert (Zeros(count) + s)[..count - 1] == Zeros(count - 1) + s;
    } else {
      assert Zeros(count) + s == s;
    }
  }

  lemma TenPowerTen()
    ensures Power10(10) == TEN_DIGITS
  {
    assert Power10(2) == 100;
    assert Power10(4) == 10 * (10 * Power10(2));
    assert Power10(6) == 10 * (10 * Power10(4));
    assert Power10(8) == 10 * (10 * Power10(6));
    assert Power10(10) == 10 * (10 * Power10(8));
  }

  lemma PaddedIs(n: nat)
    ensures AllDigits(Padded(n)) && Value(Padded(n)) == n
    ensures |Padded(n)| >= 10 && (|Padded(n)| == 10 <==> n < TEN_DIGITS)
  {
    ValueOfDigits(n);
    TenPowerTen();
    DigitCount(n, 10);
    if |Digits(n)| < 10 {
      ValueOfZeros(10 - |Digits(n)|, Digits(n));
    }
  }

  // ----- names -----

  function Suffix(kind: Kind): string {
    match kind
    case Data => ".rba"
    case Index => ".rbi"
    case DataTemp => ".rba.tmp"
    case IndexTemp => ".rbi.tmp"
  }

  const PREFIX: string := "blocks-"

  function Assemble(first: string, last: string, suffix: string): string {
    PREFIX + first + "-" + last + suffix
  }

  function Render(file: FileName): string {
    Assemble(Padded(file.first), Padded(file.last), Suffix(file.kind))
  }

  /** The name spelled out: both numbers in ten digits or more, between fixed marks. */
  lemma RenderLayout(file: FileName)
    ensures exists p: string, q: string ::
              && AllDigits(p) && Value(p) == file.first && |p| >= 10 && (file.first < TEN_DIGITS ==> |p| == 10)
              && AllDigits(q) && Value(q) == file.last && |q| >= 10 && (file.last < TEN_DIGITS ==> |q| == 10)
              && Render(file) == "blocks-" + p + "-" + q + match file.kind
                                                            case Data => ".rba"
                                                            case Index => ".rbi"
                                                            case DataTemp => ".rba.tmp"
                                                            case IndexTemp => ".rbi.tmp"
  {
    PaddedIs(file.first);
    PaddedIs(file.last);
    assert Render(file) == Assemble(Padded(file.first), Padded(file.last), Suffix(file.kind));
  }

  /** Digits up to a first other character are recovered from the text they start. */
  lemma DigitsThen(a: string, restA: string, b: string, restB: string)
    requires AllDigits(a) && AllDigits(b) && a + restA == b + restB
    requires |restA| > 0 && !IsDigit(restA[0]) && |restB| > 0 && !IsDigit(restB[0])
    ensures a == b && restA == restB
  {
    var whole := a + restA;
    assert whole[|a|] == restA[0] && whole[|b|] == restB[0];
    assert a == whole[..|a|] && b == whole[..|b|];
    assert restA == whole[|a|..] && restB == whole[|b|..];
  }

  lemma AssembleInjective(p: string, q: string, s: string, p': string, q': string, s': string)
    requires AllDigits(p) && AllDigits(q) && |s| > 0 && !IsDigit(s[0])
    requires AllDigits(p') && AllDigits(q') && |s'| > 0 && !IsDigit(s'[0])
    requires Assemble(p, q, s) == Assemble(p', q', s')
    ensures p == p' && q == q' && s == s'
  {
    var tail, tail' := q + s, q' + s';
    assert Assemble(p, q, s) == PREFIX + (p + (['-'] + tail));
    assert Assemble(p', q', s') == PREFIX + (p' + (['-'] + tail'));
    assert p + (['-'] + tail) == Assemble(p, q, s)[|PREFIX|..];
    assert p' + (['-'] + tail') == Assemble(p', q', s')[|PREFIX|..];
    DigitsThen(p, ['-'] + tail, p', ['-'] + tail');
    assert tail == (['-'] + tail)[1..] == (['-'] + tail')[1..] == tail';
    DigitsThen(q, s, q', s');
  }

  /** Distinct files have distinct names. */
  lemma RenderInjective(f: FileName, g: FileName)
    requires Render(f) == Render(g)
    ensures f == g
  {
    PaddedIs(f.first);
    PaddedIs(f.last);
    PaddedIs(g.first);
    PaddedIs(g.last);
    AssembleInjective(Padded(f.first), Padded(f.last), Suffix(f.kind),
                      Padded(g.first), Padded(g.last), Suffix(g.kind));
    assert |Suffix(f.kind)| == |Suffix(g.kind)| && Suffix(f.kind)[3] == Suffix(g.kind)[3];
  }

  // ----- recovering the range -----

  /** The pattern `blocks-(\d{10})-(\d{10})\.rbi` at position `i`. */
  predicate MatchesAt(name: string, i: nat) {
    && i + 32 <= |name|
    && name[i..i + 7] == PREFIX
    && AllDigits(name[i + 7..i + 17])
    && name[i + 17] == '-'
    && AllDigits(name[i + 18..i + 28])
    && name[i + 28..i + 32] == ".rbi"
  }

  /** The leftmost match at or after `i`. */
  function Search(name: string, i: nat): (r: Option<nat>)
    requires i <= |name|
    ensures r.Some? ==> MatchesAt(name, r.value)
    decreases |name| - i
  {
    if MatchesAt(name, i) then Some(i)
    else if i == |name| then None
    else Search(name, i + 1)
  }

  function ParseBlockRange(name: string): Option<(nat, nat)> {
    match Search(name, 0)
    case None => None
    case Some(i) => Some((Value(name[i + 7..i + 17]), Value(name[i + 18..i + 28])))
  }

  lemma {:induction false} SearchFails(name: string, i: nat)
    requires i <= |name|
    requires forall j | i <= j <= |name| :: !MatchesAt(name, j)
    ensures Search(name, i) == None
    decreases |name| - i
  {
    if i >= |name| {
    } else {
      SearchFails(name, i + 1);
    }
  }

  lemma MatchPosition(p: string, q: string, i: nat)
    requires AllDigits(p) && AllDigits(q) && |p| >= 10 && |q| >= 10
    ensures MatchesAt(Assemble(p, q, ".rbi"), i) <==> i == 0 && |p| == 10 && |q| == 10
  {
    var name := Assemble(p, q, ".rbi");
    var a, b := 7 + |p|, 8 + |p| + |q|;
    assert |name| == b + 4 && name[0..7] == PREFIX && name[7..a] == p;
    assert name[a] == '-' && name[a + 1..b] == q && name[b..] == ".rbi";
    if i == 0 {
      if |p| == 10 && |q| == 10 {
        assert name[28..32] == name[28..];
      } else if |p| > 10 {
        assert name[17] == p[10];
      } else {
        assert name[28] == q[10];
        assert name[28..32][0] == name[28];
      }
    } else if i + 32 <= |name| {
      assert name[i..i + 7][0] == name[i];
      assert i < 7 ==> name[i] == PREFIX[i];
      assert 7 <= i < a ==> name[i] == p[i - 7];
      assert a < i < b ==> name[i] == q[i - a - 1];
    }
  }

  /**
   * The range written into an index file's name is recovered exactly when both numbers have at
   * most ten digits; any larger number makes the file unreadable.
   */
  lemma ParseOfRender(first: nat, last: nat)
    ensures ParseBlockRange(Render(FileName(first, last, Index))) ==
            if first < TEN_DIGITS && last < TEN_DIGITS then Some((first, last)) else None
  {
    PaddedIs(first);
    PaddedIs(last);
    var p, q := Padded(first), Padded(last);
    var name := Assemble(p, q, ".rbi");
    forall i | 0 <= i <= |name|
      ensures MatchesAt(name, i) <==> i == 0 && |p| == 10 && |q| == 10
    {
      MatchPosition(p, q, i);
    }
    if |p| == 10 && |q| == 10 {
      assert name[7..17] == p && name[18..28] == q;
    } else {
      SearchFails(name, 0);
    }
  }
}
