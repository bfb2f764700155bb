/** Generated passwords (`generateSecurePassword`) over the URL-safe base64 encoding of section 5 of RFC 4648. */
module Passwords {
  import opened Text
  import Redaction

  type Octet = n: int | 0 <= n < 256

  const PAD: char := '='
  const PASSWORD_LENGTH: nat := 32

  /** The sixty-four characters of the URL-safe alphabet. */
  predicate InAlphabet(c: char) {
    'A' <= c <= 'Z' || 'a' <= c <= 'z' || '0' <= c <= '9' || c == '-' || c == '_'
  }

  /** The character for a six-bit value. */
  function Digit(v: int): (c: char)
    requires 0 <= v < 64
    ensures InAlphabet(c)
  {
    if v < 26 then (65 + v) as char
    else if v < 52 then (97 + v - 26) as char
    else if v < 62 then (48 + v - 52) as char
    else if v == 62 then '-'
    else '_'
  }

  lemma DigitInjective(v: int, w: int)
    requires 0 <= v < 64 && 0 <= w < 64 && Digit(v) == Digit(w)
    ensures v == w
  {
    assert Digit(v) as int == Digit(w) as int;
  }

  /** Three octets as four characters. */
  function Quad(x: Octet, y: Octet, z: Octet): (q: string)
    ensures |q| == 4 && forall k :: 0 <= k < 4 ==> InAlphabet(q[k])
  {
    [Digit(x / 4), Digit(x % 4 * 16 + y / 16), Digit(y % 16 * 4 + z / 64), Digit(z % 64)]
  }

  lemma QuadInjective(x: Octet, y: Octet, z: Octet, x': Octet, y': Octet, z': Octet)
    requires Quad(x, y, z) == Quad(x', y', z')
    ensures x == x' && y == y' && z == z'
  {
    var q, q' := Quad(x, y, z), Quad(x', y', z');
    assert q[0] == q'[0] && q[1] == q'[1] && q[2] == q'[2] && q[3] == q'[3];
    DigitInjective(x / 4, x' / 4);
    DigitInjective(x % 4 * 16 + y / 16, x' % 4 * 16 + y' / 16);
    DigitInjective(y % 16 * 4 + z / 64, y' % 16 * 4 + z' / 64);
    DigitInjective(z % 64, z' % 64);
  }

  /** Padded encoding: a tail of one or two octets is encoded as if zero-filled, then padded. */
  function Encode(b: seq<Octet>): string {
    if |b| == 0 then ""
    else if |b| == 1 then Quad(b[0], 0, 0)[..2] + [PAD, PAD]
    else if |b| == 2 then Quad(b[0], b[1], 0)[..3] + [PAD]
    else Quad(b[0], b[1], b[2]) + Encode(b[3..])
  }

  /** The value a character of the alphabet stands for, by the table of section 5 of RFC 4648. */
  function Sextet(c: char): (v: int)
    ensures 0 <= v < 64
  {
    if 'A' <= c <= 'Z' then c as int - 'A' as int
    else if 'a' <= c <= 'z' then c as int - 'a' as int + 26
    else if '0' <= c <= '9' then c as int - '0' as int + 52
    else if c == '-' then 62
    else 63
  }

  /** Groups of four characters back to octets; the padding tells how many the last group holds. */
  function Decode(s: string): seq<Octet> {
    if |s| < 4 then []
    else
      var a, b, c, d := Sextet(s[0]), Sextet(s[1]), Sextet(s[2]), Sextet(s[3]);
      var x, y, z := a * 4 + b / 16, b % 16 * 16 + c / 4, c % 4 * 64 + d;
      if s[2] == '=' then [x] else if s[3] == '=' then [x, y] else [x, y, z] + Decode(s[4..])
  }

  lemma SextetDigit(v: int)
    requires 0 <= v < 64
    ensures Sextet(Digit(v)) == v && Digit(v) != '='
  {
  }

  lemma QuadOctets(x: Octet, y: Octet, z: Octet)
    ensures var q := Quad(x, y, z);
            var a, b, c, d := Sextet(q[0]), Sextet(q[1]), Sextet(q[2]), Sextet(q[3]);
            && a * 4 + b / 16 == x && b % 16 * 16 + c / 4 == y && c % 4 * 64 + d == z
            && q[2] != '=' && q[3] != '='
  {
    SextetDigit(x / 4);
    SextetDigit(x % 4 * 16 + y / 16);
    SextetDigit(y % 16 * 4 + z / 64);
    SextetDigit(z % 64);
  }

  lemma DecodeGroup(x: Octet, y: Octet, z: Octet, rest: string)
    ensures Decode(Quad(x, y, z) + rest) == [x, y, z] + Decode(rest)
  {
    var q := Quad(x, y, z);
    var s := q + rest;
    QuadOctets(x, y, z);
    assert s[0] == q[0] && s[1] == q[1] && s[2] == q[2] && s[3] == q[3] && s[4..] == rest;
  }

  lemma DecodeTail(x: Octet, y: Octet)
    ensures Decode(Quad(x, 0, 0)[..2] + [PAD, PAD]) == [x] && Decode(Quad(x, y, 0)[..3] + [PAD]) == [x, y]
  {
    QuadOctets(x, 0, 0);
    QuadOctets(x, y, 0);
  }

  lemma DecodeOne(b: seq<Octet>)
    requires |b| == 1
    ensures Decode(Encode(b)) == b
  {
    DecodeTail(b[0], 0);
    assert b == [b[0]];
  }

  lemma DecodeTwo(b: seq<Octet>)
    requires |b| == 2
    ensures Decode(Encode(b)) == b
  {
    DecodeTail(b[0], b[1]);
    assert b == [b[0], b[1]];
  }

  /** Decoding gives the octets back, however many there are. */
  lemma {:induction false} DecodeEncode(b: seq<Octet>)
    ensures Decode(Encode(b)) == b
  {
    if |b| == 1 {
      DecodeOne(b);
    } else if |b| == 2 {
      DecodeTwo(b);
    } else if |b| >= 3 {
      DecodeGroup(b[0], b[1], b[2], Encode(b[3..]));
      DecodeEncode(b[3..]);
      assert b == [b[0], b[1], b[2]] + b[3..];
    }
  }

  /** Number of leading characters that carry data. */
  function DataLength(octets: nat): nat {
    (4 * octets + 2) / 3
  }

  lemma {:induction false} EncodeLength(b: seq<Octet>)
    ensures |Encode(b)| == (|b| + 2) / 3 * 4
  {
    if |b| >= 3 {
      EncodeLength(b[3..]);
      GroupCount(|b|);
    }
  }

  lemma GroupCount(n: nat)
    requires n >= 3
    ensures (n + 2) / 3 * 4 == (n - 3 + 2) / 3 * 4 + 4
  {
  }

  lemma {:induction false} EncodeAt(b: seq<Octet>, k: nat)
    requires k < |Encode(b)|
    ensures if k < DataLength(|b|) then InAlphabet(Encode(b)[k]) else Encode(b)[k] == PAD
  {
    if |b| >= 3 {
      assert DataLength(|b|) == 4 + DataLength(|b[3..]|);
      if k >= 4 {
        EncodeAt(b[3..], k - 4);
        assert Encode(b)[k] == Encode(b[3..])[k - 4];
      } else {
        assert Encode(b)[k] == Quad(b[0], b[1], b[2])[k];
      }
    }
  }

  /** The encoding has whole groups of four: `DataLength` alphabet characters, then only padding. */
  lemma EncodeShape(b: seq<Octet>)
    ensures |Encode(b)| == (|b| + 2) / 3 * 4 >= DataLength(|b|)
    ensures forall k :: 0 <= k < |Encode(b)| ==>
        if k < DataLength(|b|) then InAlphabet(Encode(b)[k]) else Encode(b)[k] == PAD
  {
    EncodeLength(b);
    forall k | 0 <= k < |Encode(b)|
      ensures if k < DataLength(|b|) then InAlphabet(Encode(b)[k]) else Encode(b)[k] == PAD
    {
      EncodeAt(b, k);
    }
  }

  /** Octets drawn for a password of `n` characters. */
  function OctetsFor(n: nat): nat {
    (n * 3 + 3) / 4
  }

  /** `generateSecurePassword` for any length, the random octets being given. */
  function Password(n: nat, random: seq<Octet>): (p: string)
    requires |random| == OctetsFor(n)
    ensures |p| == n && forall k :: 0 <= k < n ==> InAlphabet(p[k])
  {
    EncodeShape(random);
    Encode(random)[..n]
  }

  /** The first group of four characters, and the rest. */
  lemma EncodeGroup(b: seq<Octet>)
    requires |b| >= 3
    ensures |Encode(b)| >= 4 && Encode(b)[4..] == Encode(b[3..])
  {
  }

  lemma GroupInjective(a: seq<Octet>, b: seq<Octet>)
    requires |a| >= 3 && |b| >= 3 && Encode(a) == Encode(b)
    ensures a[0] == b[0] && a[1] == b[1] && a[2] == b[2]
  {
    assert Quad(a[0], a[1], a[2]) == Encode(a)[..4] == Encode(b)[..4] == Quad(b[0], b[1], b[2]);
    QuadInjective(a[0], a[1], a[2], b[0], b[1], b[2]);
  }

  lemma RestEqual(a: seq<Octet>, b: seq<Octet>)
    requires |a| >= 3 && |b| >= 3 && Encode(a) == Encode(b)
    ensures Encode(a[3..]) == Encode(b[3..])
  {
    EncodeGroup(a);
    EncodeGroup(b);
  }

  /** Equal encodings of whole groups come from equal octets. */
  lemma {:induction false} EncodeInjective(a: seq<Octet>, b: seq<Octet>, groups: nat)
    requires |a| == |b| == 3 * groups && Encode(a) == Encode(b)
    ensures a == b
  {
    if groups != 0 {
      GroupInjective(a, b);
      RestEqual(a, b);
      EncodeInjective(a[3..], b[3..], groups - 1);
      SameThreeAndRest(a, b);
    }
  }

  lemma SameThreeAndRest(a: seq<Octet>, b: seq<Octet>)
    requires |a| >= 3 && |b| >= 3 && a[0] == b[0] && a[1] == b[1] && a[2] == b[2] && a[3..] == b[3..]
    ensures a == b
  {
    assert a == [a[0], a[1], a[2]] + a[3..] && b == [b[0], b[1], b[2]] + b[3..];
  }

  lemma EnoughOctets(n: nat)
    ensures (OctetsFor(n) + 2) / 3 * 4 >= n
    ensures n >= 4 ==> OctetsFor(n) == OctetsFor(n - 4) + 3
  {
  }

  lemma PasswordGroup(n: nat, a: seq<Octet>)
    requires n >= 4 && |a| == OctetsFor(n)
    ensures |a[3..]| == OctetsFor(n - 4) && Password(n, a) == Encode(a)[..4] + Password(n - 4, a[3..])
  {
    EnoughOctets(n);
    EncodeLength(a);
    EncodeGroup(a);
    Regroup(Encode(a), n);
  }

  lemma Regroup(e: string, n: nat)
    requires 4 <= n <= |e|
    ensures e[..n] == e[..4] + e[4..][..n - 4]
  {
  }

  lemma OctetsSplit(m: nat, r: nat)
    requires r < 4
    ensures OctetsFor(4 * m + r) == 3 * m + r
  {
  }

  /** All zeros, but for the last octet. */
  predicate ZerosThen(a: seq<Octet>, last: Octet) {
    a != [] && a[|a| - 1] == last && forall k :: 0 <= k < |a| - 1 ==> a[k] == 0
  }

  /** Outside whole groups, the low bit of the last octet reaches no kept character. */
  lemma {:induction false} LowBitDropped(n: nat, a: seq<Octet>, b: seq<Octet>)
    requires n % 4 != 0 && |a| == |b| == OctetsFor(n) && ZerosThen(a, 0) && ZerosThen(b, 1)
    ensures Password(n, a) == Password(n, b)
  {
    if n < 4 {
      LowBitBase(a, b, n);
    } else {
      FewerOctets(n);
      LowBitDropped(n - 4, a[3..], b[3..]);
      OneMoreGroup(a, b, n);
    }
  }

  lemma FewerOctets(n: nat)
    requires n >= 4 && n % 4 != 0
    ensures OctetsFor(n) == OctetsFor(n - 4) + 3 && (n - 4) % 4 != 0 && OctetsFor(n) >= 4
  {
  }

  lemma OneMoreGroup(a: seq<Octet>, b: seq<Octet>, n: nat)
    requires n >= 4 && |a| == |b| == OctetsFor(n) && a[0] == b[0] && a[1] == b[1] && a[2] == b[2]
    requires Password(n - 4, a[3..]) == Password(n - 4, b[3..])
    ensures Password(n, a) == Password(n, b)
  {
    PasswordGroup(n, a);
    PasswordGroup(n, b);
    SameGroup(a, b);
  }

  lemma SameGroup(a: seq<Octet>, b: seq<Octet>)
    requires |a| >= 3 && |b| >= 3 && a[0] == b[0] && a[1] == b[1] && a[2] == b[2]
    ensures |Encode(a)| >= 4 && |Encode(b)| >= 4 && Encode(a)[..4] == Encode(b)[..4]
  {
    assert Encode(a)[..4] == Quad(a[0], a[1], a[2]);
  }

  lemma LowBitBase(a: seq<Octet>, b: seq<Octet>, n: nat)
    requires 1 <= n < 4 && |a| == |b| == OctetsFor(n) && ZerosThen(a, 0) && ZerosThen(b, 1)
    ensures Password(n, a) == Password(n, b)
  {
    assert Encode(a)[..n] == Quad(0, 0, 0)[..n];
    assert n == 1 ==> b == [1];
    assert n == 2 ==> b == [0, 1];
    assert n == 3 ==> b == [0, 0, 1];
    LowBits(n);
  }

  lemma LowBits(n: nat)
    requires 1 <= n < 4
    ensures n == 1 ==> Encode([1])[..n] == Quad(0, 0, 0)[..n]
    ensures n == 2 ==> Encode([0, 1])[..n] == Quad(0, 0, 0)[..n]
    ensures n == 3 ==> Encode([0, 0, 1])[..n] == Quad(0, 0, 0)[..n]
  {
  }

  /** Distinct draws give distinct passwords. */
  ghost predicate DrawsDistinct(n: nat) {
    forall a: seq<Octet>, b: seq<Octet> ::
      |a| == |b| == OctetsFor(n) && Password(n, a) == Password(n, b) ==> a == b
  }

  lemma WholeOctets(n: nat)
    requires n % 4 == 0
    ensures OctetsFor(n) == 3 * (n / 4) && (OctetsFor(n) + 2) / 3 * 4 == n
  {
    var m := n / 4;
    assert OctetsFor(n) == 3 * m;
  }

  lemma WholeGroups(n: nat, a: seq<Octet>)
    requires n % 4 == 0 && |a| == OctetsFor(n)
    ensures |a| == 3 * (n / 4) && Password(n, a) == Encode(a)
  {
    WholeOctets(n);
    EncodeLength(a);
    assert Encode(a)[..n] == Encode(a);
  }

  /** Two draws for one password. */
  lemma TwoDraws(n: nat) returns (a: seq<Octet>, b: seq<Octet>)
    requires n % 4 != 0
    ensures |a| == |b| == OctetsFor(n) && a != b && Password(n, a) == Password(n, b)
  {
    OctetsSplit(n / 4, n % 4);
    var zeros: seq<Octet> := seq(OctetsFor(n) - 1, _ => 0);
    a, b := zeros + [0], zeros + [1];
    assert a[|zeros|] != b[|zeros|];
    LowBitDropped(n, a, b);
  }

  lemma WholeGroupsDistinct(n: nat, a: seq<Octet>, b: seq<Octet>)
    requires n % 4 == 0 && |a| == |b| == OctetsFor(n) && Password(n, a) == Password(n, b)
    ensures a == b
  {
    WholeGroups(n, a);
    WholeGroups(n, b);
    EncodeInjective(a, b, n / 4);
  }

  /** No random octet is wasted exactly when the length is a multiple of four, as 32 is. */
  lemma DrawsDistinctIff(n: nat)
    ensures DrawsDistinct(n) <==> n % 4 == 0
  {
    if n % 4 == 0 {
      forall a: seq<Octet>, b: seq<Octet> | |a| == |b| == OctetsFor(n) && Password(n, a) == Password(n, b)
        ensures a == b
      {
        WholeGroupsDistinct(n, a, b);
      }
    } else {
      var a, b := TwoDraws(n);
      assert !DrawsDistinct(n);
    }
  }

  /** The operator's passwords hold no NUL and are hidden by the redactor in every text. */
  lemma GeneratedPasswordsHidden(random: seq<Octet>, text: string)
    requires |random| == OctetsFor(PASSWORD_LENGTH)
    ensures var p := Password(PASSWORD_LENGTH, random);
            |p| == 32 && '\0' !in p && Redaction.Hideable(p) && !Contains(ReplaceAll(text, p, Redaction.MARK), p)
  {
    var p := Password(PASSWORD_LENGTH, random);
    Redaction.LongSecretsHideable(p);
    Redaction.Gone(text, p);
  }
}
