/**
 * The key model: the closed set of 24 musical keys plus `Unknown`, the
 * decoder from the key-finder engine's integer code, the Camelot
 * (circle-of-fifths) notation and the harmonic-mixing table.
 *
 * Besides the tables themselves the module gives an independent reference:
 * every concrete key is a tonic pitch class (C = 0 … B = 11) and a mode, and
 * both the engine's code assignment and the Camelot wheel are arithmetic in
 * those two coordinates. The tables are proved to agree with that reference,
 * which gives totality, the bijection on codes 0..23, injectivity of the
 * notation and the relative major/minor pairing.
 */
module SongKeys {

  /** Rust's `i32`: the type of the engine's key code. */
  newtype i32 = x: int | -0x8000_0000 <= x < 0x8000_0000

  datatype SongKey =
    | CMaj | DfMaj | DMaj | EfMaj | EMaj | FMaj | GfMaj | GMaj | AfMaj | AMaj | BfMaj | BMaj
    | CMin | DfMin | DMin | EfMin | EMin | FMin | GfMin | GMin | AfMin | AMin | BfMin | BMin
    | Unknown

  /** A pitch class, counted in semitones above C. */
  type PitchClass = p: int | 0 <= p < 12

  /** A position on the Camelot wheel. */
  type WheelNumber = n: int | 1 <= n <= 12 witness 1

  // ---------------------------------------------------------------------------
  // Reference coordinates of a key
  // ---------------------------------------------------------------------------

  predicate IsMinor(k: SongKey)
  {
    match k
    case CMin | DfMin | DMin | EfMin | EMin | FMin | GfMin | GMin | AfMin | AMin | BfMin | BMin => true
    case _ => false
  }

  /** The tonic of a concrete key, in semitones above C. */
  function Tonic(k: SongKey): PitchClass
    requires k != Unknown
  {
    match k
    case CMaj => 0  case DfMaj => 1  case DMaj => 2   case EfMaj => 3
    case EMaj => 4  case FMaj => 5   case GfMaj => 6  case GMaj => 7
    case AfMaj => 8 case AMaj => 9   case BfMaj => 10 case BMaj => 11
    case CMin => 0  case DfMin => 1  case DMin => 2   case EfMin => 3
    case EMin => 4  case FMin => 5   case GfMin => 6  case GMin => 7
    case AfMin => 8 case AMin => 9   case BfMin => 10 case BMin => 11
  }

  /** The concrete key with a given tonic and mode; the inverse of (Tonic, IsMinor). */
  function KeyOf(p: PitchClass, minor: bool): (k: SongKey)
    ensures k != Unknown && Tonic(k) == p && IsMinor(k) == minor
  {
    match p
    case 0 => if minor then CMin else CMaj
    case 1 => if minor then DfMin else DfMaj
    case 2 => if minor then DMin else DMaj
    case 3 => if minor then EfMin else EfMaj
    case 4 => if minor then EMin else EMaj
    case 5 => if minor then FMin else FMaj
    case 6 => if minor then GfMin else GfMaj
    case 7 => if minor then GMin else GMaj
    case 8 => if minor then AfMin else AfMaj
    case 9 => if minor then AMin else AMaj
    case 10 => if minor then BfMin else BfMaj
    case 11 => if minor then BMin else BMaj
  }

  lemma KeyOfCoordinates(k: SongKey)
    requires k != Unknown
    ensures KeyOf(Tonic(k), IsMinor(k)) == k
  {
  }

  /**
   * The Camelot wheel: keys are numbered along the circle of fifths, so that
   * one step is seven semitones; C major is 8B and a minor key shares its
   * number with its relative major (three semitones above its tonic).
   */
  function Wheel(p: PitchClass, minor: bool): WheelNumber
  {
    var r := (7 * p + (if minor then 5 else 8)) % 12;
    if r == 0 then 12 else r
  }

  /** The tonic at a wheel position: 7 is its own inverse modulo 12. */
  function WheelTonic(n: WheelNumber, minor: bool): PitchClass
  {
    (7 * (n - (if minor then 5 else 8))) % 12
  }

  /** Euclidean division by twelve, stated linearly. */
  lemma ModTwelve(x: int, q: int, r: int)
    requires x == 12 * q + r && 0 <= r < 12
    ensures x % 12 == r && x / 12 == q
  {
  }

  lemma {:induction false} WheelTonicInverse(p: PitchClass, minor: bool)
    ensures WheelTonic(Wheel(p, minor), minor) == p
  {
    var c := if minor then 5 else 8;
    var x := 7 * p + c;
    var q, r := x / 12, x % 12;
    ModTwelve(x, q, r);
    var w: int := Wheel(p, minor);
    assert w == if r == 0 then 12 else r;
    ModTwelve(7 * (w - c), 4 * p - 7 * q + (if r == 0 then 7 else 0), p);
  }

  lemma {:induction false} WheelOfTonic(n: WheelNumber, minor: bool)
    ensures Wheel(WheelTonic(n, minor), minor) == n
  {
    var c := if minor then 5 else 8;
    var y := 7 * (n - c);
    var q, p := y / 12, y % 12;
    ModTwelve(y, q, p);
    assert WheelTonic(n, minor) == p;
    if n < 12 {
      ModTwelve(7 * p + c, 4 * n - 4 * c - 7 * q, n);
    } else {
      ModTwelve(7 * p + c, 4 * n - 4 * c - 7 * q + 1, 0);
    }
  }

  /** The decimal spelling of a wheel number. */
  function NumberString(n: WheelNumber): (s: string)
    ensures 1 <= |s| <= 2
  {
    if n < 10 then ['0' + n as char] else ['1', '0' + (n - 10) as char]
  }

  /** The Camelot label: the wheel number, then `A` for minor or `B` for major. */
  function Camelot(n: WheelNumber, minor: bool): (s: string)
    ensures 2 <= |s| <= 3 && s[|s| - 1] == (if minor then 'A' else 'B')
  {
    NumberString(n) + (if minor then "A" else "B")
  }

  lemma CamelotInjective(n: WheelNumber, minor: bool, n': WheelNumber, minor': bool)
    requires Camelot(n, minor) == Camelot(n', minor')
    ensures n == n' && minor == minor'
  {
    var s, s' := Camelot(n, minor), Camelot(n', minor');
    assert minor == minor' by { assert s[|s| - 1] == s'[|s'| - 1]; }
    assert NumberString(n) == s[..|s| - 1];
    assert NumberString(n') == s'[..|s'| - 1];
    if n < 10 && n' < 10 {
      assert NumberString(n)[0] == NumberString(n')[0];
    } else if 10 <= n && 10 <= n' {
      assert NumberString(n)[1] == NumberString(n')[1];
    }
  }

  // ---------------------------------------------------------------------------
  // The operations of the source
  // ---------------------------------------------------------------------------

  /**
   * Converts the engine's key code into a key. Codes come in pairs, major
   * then minor, one semitone apart, starting from A; every other code is
   * `Unknown`.
   */
  function FromKeyT(i: i32): (k: SongKey)
    ensures 0 <= i < 24 ==> k == KeyOf((9 + i as int / 2) % 12, i % 2 == 1)
    ensures !(0 <= i < 24) <==> k == Unknown
  {
    match i
    case 0 => AMaj   case 1 => AMin
    case 2 => BfMaj  case 3 => BfMin
    case 4 => BMaj   case 5 => BMin
    case 6 => CMaj   case 7 => CMin
    case 8 => DfMaj  case 9 => DfMin
    case 10 => DMaj  case 11 => DMin
    case 12 => EfMaj case 13 => EfMin
    case 14 => EMaj  case 15 => EMin
    case 16 => FMaj  case 17 => FMin
    case 18 => GfMaj case 19 => GfMin
    case 20 => GMaj  case 21 => GMin
    case 22 => AfMaj case 23 => AfMin
    case _ => Unknown
  }

  /** The engine code of a concrete key: the inverse of FromKeyT on 0..23. */
  function EngineCode(k: SongKey): (i: i32)
    requires k != Unknown
    ensures 0 <= i < 24
  {
    (2 * ((Tonic(k) + 3) % 12) + (if IsMinor(k) then 1 else 0)) as i32
  }

  /** Euclidean division by two, stated linearly. */
  lemma ModTwo(x: int, q: int, r: int)
    requires x == 2 * q + r && 0 <= r < 2
    ensures x % 2 == r && x / 2 == q
  {
  }

  /** The code arithmetic is one-to-one on (tonic, mode bit). */
  lemma {:induction false} CodeArithmeticInjective(ta: int, ba: int, tb: int, bb: int)
    requires 0 <= ta < 12 && 0 <= tb < 12 && 0 <= ba < 2 && 0 <= bb < 2
    requires 2 * ((ta + 3) % 12) + ba == 2 * ((tb + 3) % 12) + bb
    ensures ta == tb && ba == bb
  {
    var ha, ua := (ta + 3) % 12, (ta + 3) / 12;
    var hb, ub := (tb + 3) % 12, (tb + 3) / 12;
    ModTwelve(ta + 3, ua, ha);
    ModTwelve(tb + 3, ub, hb);
    ModTwo(2 * ha + ba, ha, ba);
    ModTwo(2 * hb + bb, hb, bb);
    ModTwelve(ha + 9, 1 - ua, ta);
    ModTwelve(hb + 9, 1 - ub, tb);
  }

  /** Distinct keys have distinct engine codes. */
  lemma {:induction false} EngineCodeInjective(a: SongKey, b: SongKey)
    requires a != Unknown && b != Unknown && EngineCode(a) == EngineCode(b)
    ensures a == b
  {
    CodeArithmeticInjective(Tonic(a), if IsMinor(a) then 1 else 0, Tonic(b), if IsMinor(b) then 1 else 0);
    KeyOfCoordinates(a);
    KeyOfCoordinates(b);
  }

  lemma {:induction false} EngineCodeFromKeyT(i: i32)
    requires 0 <= i < 24
    ensures FromKeyT(i) != Unknown && EngineCode(FromKeyT(i)) == i
  {
    var k := FromKeyT(i);
    var h, b := i as int / 2, i as int % 2;
    ModTwo(i as int, h, b);
    var t, u := (9 + h) % 12, (9 + h) / 12;
    ModTwelve(9 + h, u, t);
    assert Tonic(k) == t && IsMinor(k) == (b == 1);
    ModTwelve(t + 3, 1 - u, h);
  }

  lemma {:induction false} FromKeyTEngineCode(k: SongKey)
    requires k != Unknown
    ensures FromKeyT(EngineCode(k)) == k
  {
    EngineCodeFromKeyT(EngineCode(k));
    EngineCodeInjective(FromKeyT(EngineCode(k)), k);
  }

  /** FromKeyT maps 0..23 one-to-one onto the 24 concrete keys. */
  lemma FromKeyTBijective()
    ensures forall i: i32, j: i32 :: 0 <= i < 24 && 0 <= j < 24 && FromKeyT(i) == FromKeyT(j) ==> i == j
    ensures forall k :: k != Unknown ==> FromKeyT(EngineCode(k)) == k
  {
    forall i: i32, j: i32 | 0 <= i < 24 && 0 <= j < 24 && FromKeyT(i) == FromKeyT(j)
      ensures i == j
    {
      EngineCodeFromKeyT(i);
      EngineCodeFromKeyT(j);
    }
    forall k | k != Unknown
      ensures FromKeyT(EngineCode(k)) == k
    {
      FromKeyTEngineCode(k);
    }
  }

  /** The Camelot notation of a key; `Unknown` is spelled out. */
  function ToCircleOfFifths(k: SongKey): (s: string)
    ensures k == Unknown <==> s == "Unknown"
  {
    match k
    case AMaj => "11B"  case AMin => "8A"
    case BfMaj => "6B"  case BfMin => "3A"
    case BMaj => "1B"   case BMin => "10A"
    case CMaj => "8B"   case CMin => "5A"
    case DfMaj => "3B"  case DfMin => "12A"
    case DMaj => "10B"  case DMin => "7A"
    case EfMaj => "5B"  case EfMin => "2A"
    case EMaj => "12B"  case EMin => "9A"
    case FMaj => "7B"   case FMin => "4A"
    case GfMaj => "2B"  case GfMin => "11A"
    case GMaj => "9B"   case GMin => "6A"
    case AfMaj => "4B"  case AfMin => "1A"
    case Unknown => "Unknown"
  }

  lemma MajorNotationIsCamelot(k: SongKey)
    requires k != Unknown && !IsMinor(k)
    ensures ToCircleOfFifths(k) == Camelot(Wheel(Tonic(k), false), false)
  {
  }

  lemma MinorNotationIsCamelot(k: SongKey)
    requires k != Unknown && IsMinor(k)
    ensures ToCircleOfFifths(k) == Camelot(Wheel(Tonic(k), true), true)
  {
  }

  /** The table agrees with the wheel arithmetic: every concrete key is spelled as its Camelot label. */
  lemma {:induction false} NotationIsCamelot(k: SongKey)
    requires k != Unknown
    ensures ToCircleOfFifths(k) == Camelot(Wheel(Tonic(k), IsMinor(k)), IsMinor(k))
  {
    if IsMinor(k) {
      MinorNotationIsCamelot(k);
    } else {
      MajorNotationIsCamelot(k);
    }
  }

  /** No two keys, `Unknown` included, share a notation. */
  lemma {:induction false} ToCircleOfFifthsInjective(a: SongKey, b: SongKey)
    requires ToCircleOfFifths(a) == ToCircleOfFifths(b)
    ensures a == b
  {
    if a != Unknown && b != Unknown {
      NotationIsCamelot(a);
      NotationIsCamelot(b);
      CamelotInjective(Wheel(Tonic(a), IsMinor(a)), IsMinor(a), Wheel(Tonic(b), IsMinor(b)), IsMinor(b));
      WheelTonicInverse(Tonic(a), IsMinor(a));
      WheelTonicInverse(Tonic(b), IsMinor(b));
      KeyOfCoordinates(a);
      KeyOfCoordinates(b);
    }
  }

  /** Every label nA and nB with n in 1..12 is the notation of exactly one key. */
  lemma {:induction false} EveryLabelUsedOnce(n: WheelNumber, minor: bool)
    ensures ToCircleOfFifths(KeyOf(WheelTonic(n, minor), minor)) == Camelot(n, minor)
    ensures forall k :: ToCircleOfFifths(k) == Camelot(n, minor) ==> k == KeyOf(WheelTonic(n, minor), minor)
  {
    WheelOfTonic(n, minor);
    NotationIsCamelot(KeyOf(WheelTonic(n, minor), minor));
    forall k | ToCircleOfFifths(k) == Camelot(n, minor)
      ensures k == KeyOf(WheelTonic(n, minor), minor)
    {
      ToCircleOfFifthsInjective(k, KeyOf(WheelTonic(n, minor), minor));
    }
  }

  /**
   * A major key and its relative minor (nine semitones above, e.g. C major
   * and A minor) carry the same wheel number and differ only in the letter.
   */
  lemma {:induction false} RelativeKeysShareNumber(p: PitchClass)
    ensures var major, minor := KeyOf(p, false), KeyOf((p + 9) % 12, true);
      exists n: WheelNumber :: ToCircleOfFifths(major) == Camelot(n, false) && ToCircleOfFifths(minor) == Camelot(n, true)
  {
    var q, t := (p + 9) % 12, (p + 9) / 12;
    ModTwelve(p + 9, t, q);
    var r, s := (7 * p + 8) % 12, (7 * p + 8) / 12;
    ModTwelve(7 * p + 8, s, r);
    ModTwelve(7 * q + 5, s + 5 - 7 * t, r);
    NotationIsCamelot(KeyOf(p, false));
    NotationIsCamelot(KeyOf(q, true));
    var n := Wheel(p, false);
    assert ToCircleOfFifths(KeyOf(q, true)) == Camelot(n, true);
  }

  /**
   * The harmonic-mixing table. Only the A minor row is filled in; every other
   * row, `Unknown` included, is empty.
   */
  function CompatibleKeys(k: SongKey): (r: seq<SongKey>)
    ensures k != AMin ==> r == []
    ensures k == AMin ==> k in r
  {
    match k
    case AMin => [CMaj, AMin, DMin, FMaj, EMin, GMaj]
    case _ => []
  }

  /** Distance of two wheel numbers around the twelve-position wheel. */
  function WheelDistance(m: WheelNumber, n: WheelNumber): (d: nat)
    ensures d <= 6
  {
    var diff := if m <= n then n - m else m - n;
    if diff <= 6 then diff else 12 - diff
  }

  function WheelNumberOf(k: SongKey): WheelNumber
    requires k != Unknown
  {
    Wheel(Tonic(k), IsMinor(k))
  }

  /** The widened Camelot neighbourhood: the same or an adjacent wheel number, in either mode. */
  predicate WheelNeighbours(a: SongKey, b: SongKey)
  {
    a != Unknown && b != Unknown && WheelDistance(WheelNumberOf(a), WheelNumberOf(b)) <= 1
  }

  /** The wheel numbers of the keys in the populated row. */
  lemma RowWheelNumbers()
    ensures WheelNumberOf(AMin) == 8 && WheelNumberOf(CMaj) == 8
    ensures WheelNumberOf(DMin) == 7 && WheelNumberOf(FMaj) == 7
    ensures WheelNumberOf(EMin) == 9 && WheelNumberOf(GMaj) == 9
  {
  }

  lemma {:induction false} RowMemberIsNeighbour(k: SongKey)
    requires k in CompatibleKeys(AMin)
    ensures WheelNeighbours(k, AMin)
  {
    RowWheelNumbers();
  }

  /** A concrete key is recovered from its wheel number and mode. */
  lemma {:induction false} KeyAtWheelNumber(k: SongKey)
    requires k != Unknown
    ensures k == KeyOf(WheelTonic(WheelNumberOf(k), IsMinor(k)), IsMinor(k))
  {
    KeyOfCoordinates(k);
    WheelTonicInverse(Tonic(k), IsMinor(k));
  }

  /** The keys at wheel numbers 7, 8 and 9. */
  lemma KeysNearEight()
    ensures KeyOf(WheelTonic(7, true), true) == DMin && KeyOf(WheelTonic(7, false), false) == FMaj
    ensures KeyOf(WheelTonic(8, true), true) == AMin && KeyOf(WheelTonic(8, false), false) == CMaj
    ensures KeyOf(WheelTonic(9, true), true) == EMin && KeyOf(WheelTonic(9, false), false) == GMaj
  {
    assert WheelTonic(7, true) == 2 && WheelTonic(7, false) == 5;
    assert WheelTonic(8, true) == 9 && WheelTonic(8, false) == 0;
    assert WheelTonic(9, true) == 4 && WheelTonic(9, false) == 7;
  }

  lemma {:induction false} NeighbourIsRowMember(k: SongKey)
    requires WheelNeighbours(k, AMin)
    ensures k in CompatibleKeys(AMin)
  {
    var n, minor := WheelNumberOf(k), IsMinor(k);
    RowWheelNumbers();
    assert 7 <= n <= 9;
    KeyAtWheelNumber(k);
    KeysNearEight();
    var row := CompatibleKeys(AMin);
    if n == 7 {
      assert k == (if minor then DMin else FMaj);
      assert row[2] == DMin && row[3] == FMaj;
    } else if n == 8 {
      assert k == (if minor then AMin else CMaj);
      assert row[1] == AMin && row[0] == CMaj;
    } else {
      assert k == (if minor then EMin else GMaj);
      assert row[4] == EMin && row[5] == GMaj;
    }
  }

  /**
   * The populated row is exactly the Camelot neighbourhood of 8A: its own
   * number and the two adjacent numbers, each in both modes; it lists six
   * distinct keys.
   */
  lemma AMinRowIsWheelNeighbourhood()
    ensures |CompatibleKeys(AMin)| == 6
    ensures forall i, j :: 0 <= i < j < 6 ==> CompatibleKeys(AMin)[i] != CompatibleKeys(AMin)[j]
    ensures forall k :: k in CompatibleKeys(AMin) <==> WheelNeighbours(k, AMin)
  {
    forall k
      ensures k in CompatibleKeys(AMin) <==> WheelNeighbours(k, AMin)
    {
      if k in CompatibleKeys(AMin) {
        RowMemberIsNeighbour(k);
      }
      if WheelNeighbours(k, AMin) {
        NeighbourIsRowMember(k);
      }
    }
  }

  /** The notations of the populated row, in order: 8B 8A 7A 7B 9A 9B. */
  lemma AMinRowNotations()
    ensures var row := CompatibleKeys(AMin);
      seq(|row|, i requires 0 <= i < |row| => ToCircleOfFifths(row[i])) == ["8B", "8A", "7A", "7B", "9A", "9B"]
  {
  }
}
