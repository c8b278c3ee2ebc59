/** How hard a password is to guess, as a number (web/includes/FormHandler.php:130-185), in
    exact arithmetic. */
module PasswordScore {
  import opened Basics

  datatype Kind = Lower | Upper | Digit | Special

  function KindOf(c: char): Kind {
    if 'a' <= c <= 'z' then Lower
    else if 'A' <= c <= 'Z' then Upper
    else if '0' <= c <= '9' then Digit
    else Special
  }

  function Worth(k: Kind): nat {
    match k case Lower => 1 case Upper => 2 case Digit => 3 case Special => 5
  }

  function Points(s: string): nat {
    if s == "" then 0 else Points(s[..|s| - 1]) + Worth(KindOf(s[|s| - 1]))
  }

  predicate Has(s: string, k: Kind) { exists c | c in s :: KindOf(c) == k }

  /** What one kind adds to the bonus, and to the variety. */
  function BonusOf(s: string, k: Kind): nat { if Has(s, k) then Worth(k) else 0 }

  function VarietyOf(s: string, k: Kind): nat { if Has(s, k) then 1 else 0 }

  function Bonus(s: string): nat {
    BonusOf(s, Lower) + BonusOf(s, Upper) + BonusOf(s, Digit) + BonusOf(s, Special)
  }

  function Variety(s: string): nat {
    VarietyOf(s, Lower) + VarietyOf(s, Upper) + VarietyOf(s, Digit) + VarietyOf(s, Special)
  }

  function Divisor(variety: nat): (d: nat)
    requires variety <= 4
    ensures d > 0
  {
    if variety == 4 then 1 else 2 * (5 - variety)
  }

  function Score(s: string): nat {
    Points(s) * Bonus(s) / Divisor(Variety(s))
  }

  // ----- from the numbers of characters -----

  /** How many characters of `s` are between `lo` and `hi`. */
  function Count(s: string, lo: char, hi: char): nat {
    if s == "" then 0 else Count(s[..|s| - 1], lo, hi) + if lo <= s[|s| - 1] <= hi then 1 else 0
  }

  function Flag(b: bool): nat { if b then 1 else 0 }

  lemma {:induction false} PointsFromCounts(s: string)
    ensures var lower, upper, digits := Count(s, 'a', 'z'), Count(s, 'A', 'Z'), Count(s, '0', '9');
      && lower + upper + digits <= |s|
      && Points(s) == lower + 2 * upper + 3 * digits + 5 * (|s| - lower - upper - digits)
    decreases s
  {
    if s != "" { PointsFromCounts(s[..|s| - 1]); }
  }

  lemma {:induction false} HasExactlyWhenCounted(s: string, lo: char, hi: char)
    ensures Count(s, lo, hi) <= |s|
    ensures Count(s, lo, hi) > 0 <==> exists c | c in s :: lo <= c <= hi
    decreases s
  {
    if s != "" {
      var front, c := s[..|s| - 1], s[|s| - 1];
      HasExactlyWhenCounted(front, lo, hi);
      assert s == front + [c];
      assert c in s && forall x | x in s :: x in front || x == c;
      assert forall x | x in front :: x in s;
    }
  }

  lemma {:induction false} OthersExactlyWhenCounted(s: string)
    ensures Has(s, Special) <==> Count(s, 'a', 'z') + Count(s, 'A', 'Z') + Count(s, '0', '9') < |s|
    decreases s
  {
    if s != "" {
      var front, c := s[..|s| - 1], s[|s| - 1];
      OthersExactlyWhenCounted(front);
      PointsFromCounts(front);
      assert s == front + [c];
      assert c in s && forall x | x in s :: x in front || x == c;
      assert forall x | x in front :: x in s;
    }
  }

  function DivisorFor(kinds: nat): nat {
    match kinds case 1 => 8 case 2 => 6 case 3 => 4 case 4 => 1 case _ => 10
  }

  /** The score, from how many small letters, capital letters, digits and other characters there
      are: 1, 2, 3 and 5 points for each, the same once more as a factor for each kind that
      occurs, and a divisor of 8, 6, 4 or 1 for one, two, three or four kinds. */
  lemma ScoreFromCounts(s: string)
    ensures var lower, upper, digits := Count(s, 'a', 'z'), Count(s, 'A', 'Z'), Count(s, '0', '9');
      var others := |s| - lower - upper - digits;
      var points := lower + 2 * upper + 3 * digits + 5 * others;
      var bonus := Flag(lower > 0) + 2 * Flag(upper > 0) + 3 * Flag(digits > 0) + 5 * Flag(others > 0);
      var kinds := Flag(lower > 0) + Flag(upper > 0) + Flag(digits > 0) + Flag(others > 0);
      Score(s) == points * bonus / DivisorFor(kinds)
  {
    PointsFromCounts(s);
    HasExactlyWhenCounted(s, 'a', 'z');
    HasExactlyWhenCounted(s, 'A', 'Z');
    HasExactlyWhenCounted(s, '0', '9');
    OthersExactlyWhenCounted(s);
    assert Has(s, Lower) <==> Count(s, 'a', 'z') > 0;
    assert Has(s, Upper) <==> Count(s, 'A', 'Z') > 0;
    assert Has(s, Digit) <==> Count(s, '0', '9') > 0;
  }

  // ----- order does not matter -----

  lemma {:induction false} PointsWithout(s: string, i: nat)
    requires i < |s|
    ensures Points(s) == Points(s[..i] + s[i + 1..]) + Worth(KindOf(s[i]))
    decreases s
  {
    var n := |s| - 1;
    if i == n {
      assert s[..i] + s[i + 1..] == s[..n];
    } else {
      var t := s[..n];
      PointsWithout(t, i);
      assert (s[..i] + s[i + 1..])[..n - 1] == t[..i] + t[i + 1..];
      assert (s[..i] + s[i + 1..])[n - 1] == s[n];
    }
  }

  lemma {:induction false} PointsOfPermutation(s: string, t: string)
    requires multiset(s) == multiset(t)
    ensures Points(s) == Points(t)
    decreases s
  {
    if s == "" {
      assert |t| == |multiset(t)| == 0;
    } else {
      var n := |s| - 1;
      assert s[n] in multiset(s);
      var i :| 0 <= i < |t| && t[i] == s[n];
      TakenOut(s, n);
      TakenOut(t, i);
      assert s[..n] + s[n + 1..] == s[..n];
      PointsWithout(t, i);
      PointsOfPermutation(s[..n], t[..i] + t[i + 1..]);
    }
  }

  lemma TakenOut(s: string, i: nat)
    requires i < |s|
    ensures multiset(s[..i] + s[i + 1..]) == multiset(s) - multiset{s[i]}
  {
    assert s == s[..i] + [s[i]] + s[i + 1..];
  }

  /** The score does not depend on the order of the characters. */
  lemma OrderIrrelevant(s: string, t: string)
    requires multiset(s) == multiset(t)
    ensures Score(s) == Score(t)
  {
    PointsOfPermutation(s, t);
    assert forall c :: c in s <==> c in multiset(s);
    assert forall c :: c in t <==> c in multiset(t);
    assert forall c :: c in s <==> c in t;
    forall k ensures Has(s, k) == Has(t, k) {
    }
  }

  // ----- longer is not weaker -----

  lemma ProductsGrow(a: nat, b: nat, a': nat, b': nat)
    requires a <= a' && b <= b'
    ensures a * b <= a' * b'
  {
    assert a * b <= a' * b;
    assert a' * b <= a' * b';
  }

  lemma QuotientsGrow(x: nat, v: nat, x': nat, v': nat)
    requires v <= v' <= 4 && x <= x'
    ensures x / Divisor(v) <= x' / Divisor(v')
  {
  }

  /** A character more never lowers the score: the points and the bonus grow and the divisor
      shrinks. */
  lemma NeverLowered(s: string, c: char)
    ensures Score(s + [c]) >= Score(s)
  {
    ProductsGrow(Points(s), Bonus(s), Points(s + [c]), Bonus(s + [c]));
    QuotientsGrow(Points(s) * Bonus(s), Variety(s), Points(s + [c]) * Bonus(s + [c]), Variety(s + [c]));
  }

  lemma {:induction false} PointsBounded(s: string)
    ensures |s| <= Points(s) <= 5 * |s|
    decreases s
  {
    if s != "" { PointsBounded(s[..|s| - 1]); }
  }

  /** At most 55 for every character. */
  lemma ScoreBounded(s: string)
    ensures Score(s) <= 55 * |s|
  {
    PointsBounded(s);
    ProductsGrow(Points(s), Bonus(s), 5 * |s|, 11);
    QuotientsGrow(Points(s) * Bonus(s), Variety(s), 55 * |s|, 4);
  }

  // ----- the computation -----

  lemma FloorBetween(y: real, q: int)
    requires q as real <= y < q as real + 1.0
    ensures y.Floor == q
  {
  }

  lemma FloorIs(x: nat, d: nat)
    requires d > 0
    ensures (x as real / d as real).Floor == x / d
  {
    var q, r := x / d, x % d;
    assert x == q * d + r;
    assert x as real == q as real * d as real + r as real by { ProductAsReal(q, d); }
    QuotientAndRest(x as real, q as real, r as real, d as real);
    FloorBetween(x as real / d as real, q);
  }

  lemma {:induction false} ProductAsReal(a: nat, b: nat)
    ensures (a * b) as real == a as real * b as real
    decreases a
  {
    if a > 0 {
      ProductAsReal(a - 1, b);
      assert a * b == (a - 1) * b + b;
      assert a as real * b as real == (a - 1) as real * b as real + b as real;
    }
  }

  lemma QuotientAndRest(x: real, q: real, r: real, d: real)
    requires x == q * d + r && 0.0 <= r < d
    ensures q <= x / d < q + 1.0
  {
    assert x / d == q + r / d;
  }

  /** The loop. */
  method Tally(mdp: string) returns (point: nat, bonus: nat, variety: nat)
    ensures point == Points(mdp) && bonus == Bonus(mdp) && variety == Variety(mdp)
  {
    point := 0;
    var pointMin, pointMaj, pointChiffre, pointCaracteres := 0, 0, 0, 0;
    var min, maj, chif, autre := 0, 0, 0, 0;
    for i := 0 to |mdp|
      invariant point == Points(mdp[..i])
      invariant pointMin == BonusOf(mdp[..i], Lower) && min == VarietyOf(mdp[..i], Lower)
      invariant pointMaj == BonusOf(mdp[..i], Upper) && maj == VarietyOf(mdp[..i], Upper)
      invariant pointChiffre == BonusOf(mdp[..i], Digit) && chif == VarietyOf(mdp[..i], Digit)
      invariant pointCaracteres == BonusOf(mdp[..i], Special) && autre == VarietyOf(mdp[..i], Special)
    {
      var lettre := mdp[i];
      assert mdp[..i + 1] == mdp[..i] + [lettre];
      if 'a' <= lettre <= 'z' {
        point, pointMin, min := point + 1, 1, 1;
      } else if 'A' <= lettre <= 'Z' {
        point, pointMaj, maj := point + 2, 2, 1;
      } else if '0' <= lettre <= '9' {
        point, pointChiffre, chif := point + 3, 3, 1;
      } else {
        point, pointCaracteres, autre := point + 5, 5, 1;
      }
    }
    assert mdp[..|mdp|] == mdp;
    bonus, variety := pointMin + pointMaj + pointChiffre + pointCaracteres, autre + chif + maj + min;
  }

  /** The two coefficients multiplied with the length again. */
  method Total(point: nat, longueur: nat, etape2: nat) returns (final: real)
    requires longueur > 0
    ensures final == (point * etape2) as real
  {
    var etape1 := point as real / longueur as real;
    var resultat := etape1 * etape2 as real;
    final := resultat * longueur as real;
  }

  method Quotient(final: real, ghost total: nat, test: nat) returns (r: int)
    requires final == total as real && test > 0
    ensures r == total / test
  {
    FloorIs(total, test);
    return (final / test as real).Floor;
  }

  /** `testpassword`.  An empty password divides by zero. */
  method TestPassword(mdp: string) returns (score: Option<int>)
    ensures score == if mdp == "" then None else Some(Score(mdp))
  {
    var longueur := |mdp|;
    var point, etape2, variety := Tally(mdp);
    if longueur == 0 { return None; }
    var final := Total(point, longueur, etape2);
    var test := 5 - variety;
    if test != 1 { test := test * 2; }
    assert test == Divisor(variety);
    var r := Quotient(final, point * etape2, test);
    return Some(r);
  }
}
