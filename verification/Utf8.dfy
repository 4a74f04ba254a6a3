/** UTF-8 text as the bytes the database column receives: well-formedness as in
    sections 3 and 4 of RFC 3629, and the truncation of an error text that keeps
    whole characters only. */
module Utf8 {

  newtype Byte = b: int | 0 <= b < 0x100

  predicate Tail(b: Byte) {
    0x80 <= b <= 0xBF
  }

  /** A byte that may begin a character (everything but a tail byte). */
  predicate RuneStart(b: Byte) {
    !Tail(b)
  }

  predicate Two(b0: Byte, b1: Byte) {
    0xC2 <= b0 <= 0xDF && Tail(b1)
  }

  predicate Three(b0: Byte, b1: Byte, b2: Byte) {
    && Tail(b2)
    && (|| (b0 == 0xE0 && 0xA0 <= b1 <= 0xBF)
        || (0xE1 <= b0 <= 0xEC && Tail(b1))
        || (b0 == 0xED && 0x80 <= b1 <= 0x9F)
        || (0xEE <= b0 <= 0xEF && Tail(b1)))
  }

  predicate Four(b0: Byte, b1: Byte, b2: Byte, b3: Byte) {
    && Tail(b2) && Tail(b3)
    && (|| (b0 == 0xF0 && 0x90 <= b1 <= 0xBF)
        || (0xF1 <= b0 <= 0xF3 && Tail(b1))
        || (b0 == 0xF4 && 0x80 <= b1 <= 0x8F))
  }

  /** Length of the well-formed character `s` begins with, 0 when there is none. */
  function CharLen(s: seq<Byte>): (n: nat)
    ensures n <= 4 && n <= |s|
  {
    if |s| >= 1 && s[0] <= 0x7F then 1
    else if |s| >= 2 && Two(s[0], s[1]) then 2
    else if |s| >= 3 && Three(s[0], s[1], s[2]) then 3
    else if |s| >= 4 && Four(s[0], s[1], s[2], s[3]) then 4
    else 0
  }

  /** A sequence of well-formed characters and nothing else. */
  predicate Valid(s: seq<Byte>)
    decreases |s|
  {
    s == [] || (CharLen(s) > 0 && Valid(s[CharLen(s)..]))
  }

  /** The text without the bytes that begin no well-formed character:
      strings.ToValidUTF8 with an empty replacement. */
  function Sanitized(s: seq<Byte>): (r: seq<Byte>)
    decreases |s|
  {
    if s == [] then []
    else if CharLen(s) == 0 then Sanitized(s[1..])
    else s[..CharLen(s)] + Sanitized(s[CharLen(s)..])
  }

  /** Where the cut lands: the last position at or before `at` that begins a
      character, or 0. */
  function Cut(s: seq<Byte>, at: nat): (k: nat)
    requires at < |s|
    ensures k <= at
    ensures k == 0 || RuneStart(s[k])
    ensures forall j :: k < j <= at ==> !RuneStart(s[j])
  {
    if at > 0 && !RuneStart(s[at]) then Cut(s, at - 1) else at
  }

  function Truncated(s: seq<Byte>, maxBytes: nat): seq<Byte> {
    if |s| <= maxBytes then Sanitized(s) else Sanitized(s[..Cut(s, maxBytes)])
  }

  // What a character is made of: one starting byte, tail bytes after it.
  lemma CharShape(s: seq<Byte>)
    requires CharLen(s) > 0
    ensures RuneStart(s[0])
    ensures forall j :: 0 < j < CharLen(s) ==> !RuneStart(s[j])
  {
  }

  // A character is recognised from its own bytes, whatever follows.
  lemma CharLocal(s: seq<Byte>, t: seq<Byte>)
    requires CharLen(s) > 0
    ensures CharLen(s[..CharLen(s)] + t) == CharLen(s)
    ensures s[..CharLen(s)] + t == s ==> t == s[CharLen(s)..]
  {
    var n := CharLen(s);
    var u := s[..n] + t;
    assert forall j :: 0 <= j < n ==> u[j] == s[j];
    if u == s {
      assert t == u[n..];
    }
  }

  // The first character of a text is the first character of the text continued.
  lemma CharOfConcat(a: seq<Byte>, b: seq<Byte>)
    requires CharLen(a) > 0
    ensures CharLen(a + b) == CharLen(a)
    ensures (a + b)[..CharLen(a)] == a[..CharLen(a)]
    ensures (a + b)[CharLen(a)..] == a[CharLen(a)..] + b
  {
    var n := CharLen(a);
    CharLocal(a, a[n..] + b);
    assert a[..n] + (a[n..] + b) == a + b;
  }


  lemma {:induction false} SanitizedValid(s: seq<Byte>)
    ensures Valid(Sanitized(s)) && |Sanitized(s)| <= |s|
    decreases |s|
  {
    if s == [] {
    } else if CharLen(s) == 0 {
      SanitizedValid(s[1..]);
    } else {
      var n := CharLen(s);
      CharLocal(s, Sanitized(s[n..]));
      SanitizedValid(s[n..]);
      assert (s[..n] + Sanitized(s[n..]))[n..] == Sanitized(s[n..]);
    }
  }

  lemma {:induction false} SanitizedIdentity(s: seq<Byte>)
    requires Valid(s)
    ensures Sanitized(s) == s
    decreases |s|
  {
    if s != [] {
      SanitizedIdentity(s[CharLen(s)..]);
    }
  }

  /** Sanitizing works character by character: a valid text in front is kept whole
      and does not change what becomes of the rest. */
  lemma {:induction false} SanitizedAppend(a: seq<Byte>, b: seq<Byte>)
    requires Valid(a)
    ensures Sanitized(a + b) == a + Sanitized(b)
    decreases |a|
  {
    if a == [] {
      assert a + b == b && a + Sanitized(b) == Sanitized(b);
    } else {
      var n := CharLen(a);
      var whole, first := a + b, a[..n];
      assert CharLen(whole) == n && whole[..n] == first && whole[n..] == a[n..] + b by {
        CharOfConcat(a, b);
      }
      SanitizedAppend(a[n..], b);
      assert first + (a[n..] + Sanitized(b)) == a + Sanitized(b);
    }
  }

  lemma Slices(s: seq<Byte>, n: nat, k: nat)
    requires n <= k < |s|
    ensures s[..k][n..] == s[n..k] == s[n..][..k - n]
    ensures s[n..][k - n] == s[k]
  {
  }

  // Part of a character is no character.
  lemma CharCut(s: seq<Byte>, k: nat)
    requires 0 < k < CharLen(s)
    ensures CharLen(s[..k]) == 0
  {
  }

  /** In valid text the character boundaries are exactly the starting bytes. */
  lemma {:induction false} BoundaryIffStart(s: seq<Byte>, k: nat)
    requires Valid(s) && k < |s|
    ensures Valid(s[..k]) <==> RuneStart(s[k])
    decreases |s|
  {
    var n := CharLen(s);
    CharShape(s);
    if k == 0 {
    } else if k < n {
      CharCut(s, k);
    } else {
      CharLocal(s, s[n..k]);
      assert s[..n] + s[n..k] == s[..k];
      Slices(s, n, k);
      BoundaryIffStart(s[n..], k - n);
    }
  }

  lemma {:induction false} StartNearby(s: seq<Byte>, p: nat) returns (q: nat)
    requires Valid(s) && p < |s|
    ensures q <= p <= q + 3 && RuneStart(s[q])
    decreases |s|
  {
    var n := CharLen(s);
    CharShape(s);
    if p < n {
      q := 0;
    } else {
      var q' := StartNearby(s[n..], p - n);
      assert s[n..][q'] == s[q' + n];
      q := q' + n;
    }
  }

  /** For every input whatever: the stored text is valid UTF-8, fits the limit, and
      truncating it again changes nothing. */
  lemma TruncatedFits(s: seq<Byte>, maxBytes: nat)
    ensures Valid(Truncated(s, maxBytes))
    ensures |Truncated(s, maxBytes)| <= maxBytes
    ensures Truncated(Truncated(s, maxBytes), maxBytes) == Truncated(s, maxBytes)
  {
    SanitizedValid(if |s| <= maxBytes then s else s[..Cut(s, maxBytes)]);
    SanitizedIdentity(Truncated(s, maxBytes));
  }

  /** On valid text the result is the longest valid prefix that fits, at most three
      bytes short of the limit. */
  lemma TruncatedLongest(s: seq<Byte>, maxBytes: nat)
    requires Valid(s)
    ensures Truncated(s, maxBytes) <= s
    ensures forall k :: 0 <= k <= |s| && k <= maxBytes && Valid(s[..k]) ==> k <= |Truncated(s, maxBytes)|
    ensures |s| <= maxBytes ==> Truncated(s, maxBytes) == s
    ensures |s| > maxBytes ==> maxBytes - 3 <= |Truncated(s, maxBytes)|
  {
    if |s| <= maxBytes {
      SanitizedIdentity(s);
    } else {
      var cut := Cut(s, maxBytes);
      BoundaryIffStart(s, cut);
      SanitizedIdentity(s[..cut]);
      forall k | cut < k <= maxBytes
        ensures !Valid(s[..k])
      {
        BoundaryIffStart(s, k);
      }
      var q := StartNearby(s, maxBytes);
    }
  }

  /** On text that is not valid the cut may back off further than one character:
      it stays within three bytes of the limit exactly when one of the last four
      candidate bytes can begin a character. */
  lemma CutBackOff(s: seq<Byte>, maxBytes: nat)
    requires maxBytes < |s|
    ensures maxBytes - Cut(s, maxBytes) <= 3 <==>
            maxBytes <= 3 || (exists q :: maxBytes - 3 <= q <= maxBytes && RuneStart(s[q]))
  {
    var cut := Cut(s, maxBytes);
    if maxBytes - cut <= 3 && maxBytes > 3 {
      assert RuneStart(s[cut]);
    }
  }

  /** truncateUTF8 */
  method Truncate(s: seq<Byte>, maxBytes: nat) returns (r: seq<Byte>)
    ensures r == Truncated(s, maxBytes)
    ensures Valid(r) && |r| <= maxBytes
    ensures Valid(s) ==> r <= s && forall k :: 0 <= k <= |s| && k <= maxBytes && Valid(s[..k]) ==> k <= |r|
  {
    TruncatedFits(s, maxBytes);
    if Valid(s) {
      TruncatedLongest(s, maxBytes);
    }
    hide Valid, Sanitized;
    if |s| <= maxBytes {
      return Sanitized(s);
    }
    var cut := maxBytes;
    while cut > 0 && !RuneStart(s[cut])
      invariant 0 <= cut <= maxBytes && Cut(s, cut) == Cut(s, maxBytes)
    {
      cut := cut - 1;
    }
    r := Sanitized(s[..cut]);
  }

  // --- characters are what RFC 3629 encodes ---

  /** The code points that are characters: the surrogates are none. */
  predicate Scalar(c: int) {
    0 <= c <= 0xD7FF || 0xE000 <= c <= 0x10FFFF
  }

  /** The table in section 3 of RFC 3629. */
  function Encode(c: int): seq<Byte>
    requires Scalar(c)
  {
    if c <= 0x7F then [c as Byte]
    else if c <= 0x7FF then [(0xC0 + c / 0x40) as Byte, (0x80 + c % 0x40) as Byte]
    else if c <= 0xFFFF then
      [(0xE0 + c / 0x1000) as Byte, (0x80 + c / 0x40 % 0x40) as Byte, (0x80 + c % 0x40) as Byte]
    else
      [(0xF0 + c / 0x40000) as Byte, (0x80 + c / 0x1000 % 0x40) as Byte, (0x80 + c / 0x40 % 0x40) as Byte,
       (0x80 + c % 0x40) as Byte]
  }

  /** Every character's encoding is recognised, whatever follows, and is valid text. */
  lemma EncodingIsCharacter(c: int, rest: seq<Byte>)
    requires Scalar(c)
    ensures CharLen(Encode(c) + rest) == |Encode(c)|
    ensures Valid(Encode(c))
  {
    var e := Encode(c);
    var s := e + rest;
    assert forall j :: 0 <= j < |e| ==> s[j] == e[j];
    assert CharLen(e) == |e| && e[|e|..] == [];
  }

  function Six(b: Byte): int {
    (b as int) - 0x80
  }

  // Six bits put below others can be read back.
  lemma SixBits(high: nat, low: nat)
    requires low < 0x40
    ensures (high * 0x40 + low) / 0x40 == high && (high * 0x40 + low) % 0x40 == low
  {
  }

  lemma ShiftTwice(c: nat)
    ensures c / 0x1000 == c / 0x40 / 0x40 && c / 0x40000 == c / 0x40 / 0x40 / 0x40
  {
  }

  lemma ThreeIsEncoding(b0: Byte, b1: Byte, b2: Byte) returns (c: int)
    requires Three(b0, b1, b2)
    ensures Scalar(c) && Encode(c) == [b0, b1, b2]
  {
    var high := (b0 as int - 0xE0) * 0x40 + Six(b1);
    c := high * 0x40 + Six(b2);
    SixBits(b0 as int - 0xE0, Six(b1));
    SixBits(high, Six(b2));
    ShiftTwice(c);
  }

  lemma FourIsEncoding(b0: Byte, b1: Byte, b2: Byte, b3: Byte) returns (c: int)
    requires Four(b0, b1, b2, b3)
    ensures Scalar(c) && Encode(c) == [b0, b1, b2, b3]
  {
    var high := (b0 as int - 0xF0) * 0x40 + Six(b1);
    var higher := high * 0x40 + Six(b2);
    c := higher * 0x40 + Six(b3);
    SixBits(b0 as int - 0xF0, Six(b1));
    SixBits(high, Six(b2));
    SixBits(higher, Six(b3));
    ShiftTwice(c);
  }

  /** And nothing else is: what is recognised is the encoding of a character. */
  lemma CharacterIsEncoding(s: seq<Byte>) returns (c: int)
    requires CharLen(s) > 0
    ensures Scalar(c) && Encode(c) == s[..CharLen(s)]
  {
    var n := CharLen(s);
    if n == 1 {
      c := s[0] as int;
    } else if n == 2 {
      c := (s[0] as int - 0xC0) * 0x40 + Six(s[1]);
      SixBits(s[0] as int - 0xC0, Six(s[1]));
    } else if n == 3 {
      hide Encode;
      c := ThreeIsEncoding(s[0], s[1], s[2]);
    } else {
      hide Encode;
      c := FourIsEncoding(s[0], s[1], s[2], s[3]);
    }
  }

  // --- text that is not valid ---

  /** Position p belongs to a well-formed character of s. */
  predicate InCharacter(s: seq<Byte>, p: nat) {
    p < |s| && exists q: nat :: q <= p < |s| && p < q + CharLen(s[q..])
  }

  /** The positions below n that belong to a character. */
  ghost function Kept(s: seq<Byte>, n: nat): set<nat> {
    set p: nat | p < n && InCharacter(s, p)
  }

  lemma KeptStep(s: seq<Byte>, n: nat)
    ensures |Kept(s, n + 1)| == |Kept(s, n)| + if InCharacter(s, n) then 1 else 0
  {
    hide InCharacter;
    assert Kept(s, n + 1) == Kept(s, n) + if InCharacter(s, n) then {n} else {};
  }

  lemma {:induction false} KeptRange(s: seq<Byte>, n: nat, k: nat)
    requires forall p: nat :: n <= p < n + k ==> InCharacter(s, p)
    ensures |Kept(s, n + k)| == |Kept(s, n)| + k
    decreases k
  {
    hide InCharacter;
    if k > 0 {
      KeptRange(s, n, k - 1);
      KeptStep(s, n + k - 1);
    }
  }

  /** No character reaches across position i. */
  ghost predicate Boundary(s: seq<Byte>, i: nat) {
    forall q: nat :: q < i && q <= |s| ==> q + CharLen(s[q..]) <= i
  }

  lemma BoundaryAfter(s: seq<Byte>, i: nat)
    requires i < |s| && Boundary(s, i)
    ensures CharLen(s[i..]) == 0 ==> Boundary(s, i + 1) && !InCharacter(s, i)
    ensures CharLen(s[i..]) > 0 ==> Boundary(s, i + CharLen(s[i..]))
    ensures forall p: nat :: i <= p < i + CharLen(s[i..]) ==> InCharacter(s, p)
  {
    var n := CharLen(s[i..]);
    if n > 0 {
      CharShape(s[i..]);
      forall q: nat | q < i + n
        ensures q + CharLen(s[q..]) <= i + n
      {
        if i < q {
          assert s[i..][q - i] == s[q] && s[q..][0] == s[q];
        }
      }
    }
  }

  lemma {:induction false} SanitizedFrom(s: seq<Byte>, i: nat)
    requires i <= |s| && Boundary(s, i)
    ensures |Kept(s, i)| + |Sanitized(s[i..])| == |Kept(s, |s|)|
    decreases |s| - i
  {
    hide CharLen, InCharacter, Kept, Boundary;
    if i < |s| {
      BoundaryAfter(s, i);
      var n := CharLen(s[i..]);
      if n == 0 {
        KeptStep(s, i);
        assert s[i..][1..] == s[i + 1..];
        SanitizedFrom(s, i + 1);
      } else {
        KeptRange(s, i, n);
        assert s[i..][n..] == s[i + n..];
        SanitizedFrom(s, i + n);
      }
    } else {
      assert i == |s| && s[i..] == [];
    }
  }

  /** Sanitizing keeps as many bytes as belong to characters. */
  lemma SanitizedLength(s: seq<Byte>)
    ensures |Sanitized(s)| == |Kept(s, |s|)|
  {
    hide InCharacter;
    SanitizedFrom(s, 0);
    assert s[0..] == s;
    assert Kept(s, 0) == {};
  }

  // The cut splits no character of the text.
  lemma CutKeepsCharacters(s: seq<Byte>, cut: nat, p: nat)
    requires p < cut < |s| && RuneStart(s[cut])
    ensures InCharacter(s[..cut], p) <==> InCharacter(s, p)
  {
    var t := s[..cut];
    forall q: nat | q <= p
      ensures CharLen(t[q..]) == CharLen(s[q..])
    {
      CharAcrossCut(s, cut, q);
    }
  }

  lemma CharAcrossCut(s: seq<Byte>, cut: nat, q: nat)
    requires q < cut < |s| && RuneStart(s[cut])
    ensures CharLen(s[..cut][q..]) == CharLen(s[q..])
  {
    var whole, part := s[q..], s[..cut][q..];
    assert whole == part + s[cut..];
    if CharLen(whole) > 0 {
      var n := CharLen(whole);
      CharShape(whole);
      assert whole[cut - q] == s[cut];
      assert whole[..n] + part[n..] == part;
      CharLocal(whole, part[n..]);
    } else if CharLen(part) > 0 {
      CharOfConcat(part, s[cut..]);
    }
  }

  /** A byte before the limit that is not stored: it is part of no character, or nothing
      but tail bytes follow it up to the limit. */
  predicate Lost(s: seq<Byte>, maxBytes: nat, p: nat)
    requires maxBytes < |s|
  {
    !InCharacter(s, p) || forall j: nat :: p < j <= maxBytes ==> Tail(s[j])
  }

  ghost function LostBytes(s: seq<Byte>, maxBytes: nat): set<nat>
    requires maxBytes < |s|
  {
    set p: nat | p < maxBytes && Lost(s, maxBytes, p)
  }

  lemma {:induction false} Complement(a: set<nat>, b: set<nat>, n: nat)
    requires a !! b && forall p: nat :: p in a || p in b <==> p < n
    ensures |a| + |b| == n
    decreases n
  {
    if n == 0 {
      assert a == {} && b == {};
    } else {
      assert n - 1 in a || n - 1 in b;
      Complement(a - {n - 1}, b - {n - 1}, n - 1);
    }
  }

  lemma LostOrKept(s: seq<Byte>, maxBytes: nat, p: nat)
    requires maxBytes < |s| && p < maxBytes
    ensures Lost(s, maxBytes, p) <==> !(p < Cut(s, maxBytes) && InCharacter(s[..Cut(s, maxBytes)], p))
  {
    var cut := Cut(s, maxBytes);
    if p < cut {
      CutKeepsCharacters(s, cut, p);
    }
  }

  /** For every text over the limit: what is stored is short of the limit by exactly the
      lost bytes. On text that is not valid that can be any number of them. */
  lemma TruncatedLength(s: seq<Byte>, maxBytes: nat)
    requires maxBytes < |s|
    ensures |Truncated(s, maxBytes)| + |LostBytes(s, maxBytes)| == maxBytes
    ensures maxBytes - |Truncated(s, maxBytes)| <= 3 <==> |LostBytes(s, maxBytes)| <= 3
  {
    hide Lost, InCharacter;
    var cut := Cut(s, maxBytes);
    var front := s[..cut];
    SanitizedLength(front);
    var kept := Kept(front, cut);
    forall p: nat | p < maxBytes {
      LostOrKept(s, maxBytes, p);
    }
    Complement(kept, LostBytes(s, maxBytes), maxBytes);
  }

  /** Nothing at all is stored of a text whose bytes up to the limit are tail bytes,
      however large the limit is. */
  lemma TailTextVanishes(s: seq<Byte>, maxBytes: nat)
    requires maxBytes < |s| && forall j :: 0 <= j <= maxBytes ==> Tail(s[j])
    ensures Cut(s, maxBytes) == 0 && Truncated(s, maxBytes) == []
  {
  }

  /** There is such a text for every limit. */
  lemma TailTextExists(maxBytes: nat) returns (s: seq<Byte>)
    ensures |s| == maxBytes + 1 && Cut(s, maxBytes) == 0 && Truncated(s, maxBytes) == []
  {
    s := seq(maxBytes + 1, _ => 0x80);
    TailTextVanishes(s, maxBytes);
  }
}
