/**
 * Identifiers for cards and riders (`system/UID/ID.java`) and the process-wide
 * registry that hands them out (`system/UID/IDGenerator.java`).
 *
 * The source keeps the two counters and the list of registered IDs in static
 * fields; here they are the fields of one allocator object that every
 * constructor needing an ID is given.
 */
module Ids {
  import opened Wrappers

  const CARD: char := 'C'
  const RIDER: char := 'R'

  /** An ID: the type character it was made for and its UID string (`None` for Java's `null`). */
  datatype Id = Id(kind: char, uid: Option<string>)

  // ---------------------------------------------------------------------------
  // Decimal text: Integer.toString, Integer.parseInt and String.format("%08d")
  // ---------------------------------------------------------------------------

  predicate IsDigit(c: char) { '0' <= c <= '9' }

  /** Text `Integer.parseInt` reads as a non-negative number: one or more decimal digits. */
  predicate IsNumeric(s: string) {
    |s| > 0 && forall i :: 0 <= i < |s| ==> IsDigit(s[i])
  }

  function DigitChar(d: nat): (c: char)
    requires d < 10
    ensures IsDigit(c) && (c as int) - ('0' as int) == d
  {
    (('0' as int) + d) as char
  }

  function DigitValue(c: char): nat
    requires IsDigit(c)
  {
    (c as int) - ('0' as int)
  }

  function Pow10(w: nat): (p: nat)
    ensures p >= 1
  {
    if w == 0 then 1 else 10 * Pow10(w - 1)
  }

  /** `Integer.toString(n)` for `n >= 0`: the shortest decimal text of `n`. */
  function NatToString(n: nat): (s: string)
    ensures IsNumeric(s)
    ensures n >= 10 ==> s[0] != '0'
  {
    if n < 10 then [DigitChar(n)] else NatToString(n / 10) + [DigitChar(n % 10)]
  }

  /** `Integer.parseInt(s)` on decimal-digit text. */
  function ParseNat(s: string): nat
    requires IsNumeric(s)
  {
    if |s| == 1 then DigitValue(s[0])
    else ParseNat(s[..|s| - 1]) * 10 + DigitValue(s[|s| - 1])
  }

  /** The last `w` decimal digits of `n`, with leading zeros. */
  function FixedDigits(n: nat, w: nat): (s: string)
    ensures |s| == w
    ensures forall i :: 0 <= i < |s| ==> IsDigit(s[i])
  {
    if w == 0 then [] else FixedDigits(n / 10, w - 1) + [DigitChar(n % 10)]
  }

  /** `String.format("%08d", n)`: at least eight digits, zero-padded on the left. */
  function Pad8(n: nat): (s: string)
    ensures IsNumeric(s)
    ensures n < Pow10(8) ==> |s| == 8
  {
    if n < Pow10(8) then FixedDigits(n, 8) else NatToString(n)
  }

  /** The UID `ID('C')` gives when the card counter stands at `n`. */
  function CardUid(n: nat): string { "1" + Pad8(n) }

  /** The UID `ID('R')` gives when the rider counter stands at `n`. */
  function RiderUid(n: nat): string { "2" + Pad8(n) }

  /** Reading back the text of a number gives the number. */
  lemma {:induction false} ParseNatToString(n: nat)
    ensures ParseNat(NatToString(n)) == n
  {
    if n >= 10 {
      var s := NatToString(n);
      assert s[..|s| - 1] == NatToString(n / 10);
      ParseNatToString(n / 10);
    }
  }

  /** Reading back a zero-padded field gives the number when it fits in the field. */
  lemma {:induction false} ParseFixedDigits(n: nat, w: nat)
    requires w > 0 && n < Pow10(w)
    ensures ParseNat(FixedDigits(n, w)) == n
  {
    if w > 1 {
      var s := FixedDigits(n, w);
      assert s[..|s| - 1] == FixedDigits(n / 10, w - 1);
      assert n / 10 < Pow10(w - 1);
      ParseFixedDigits(n / 10, w - 1);
    }
  }

  /** `%08d` loses nothing: the padded text reads back as the number. */
  lemma Pad8RoundTrip(n: nat)
    ensures ParseNat(Pad8(n)) == n
  {
    if n < Pow10(8) { ParseFixedDigits(n, 8); } else { ParseNatToString(n); }
  }

  /**
   * Card UIDs are nine characters starting with '1' while the counter is below
   * 10^8; different counter values give different UIDs, and no card UID is a rider UID.
   */
  lemma CardUidShape(n: nat, m: nat)
    ensures n < Pow10(8) ==> |CardUid(n)| == 9 && CardUid(n)[0] == '1'
    ensures CardUid(n) == CardUid(m) ==> n == m
    ensures CardUid(n) != RiderUid(m)
  {
    if CardUid(n) == CardUid(m) {
      assert CardUid(n)[1..] == Pad8(n) && CardUid(m)[1..] == Pad8(m);
      Pad8RoundTrip(n);
      Pad8RoundTrip(m);
    }
    assert CardUid(n)[0] != RiderUid(m)[0];
  }

  /** Rider UIDs: nine characters starting with '2' below 10^8, and injective in the counter. */
  lemma RiderUidShape(n: nat, m: nat)
    ensures n < Pow10(8) ==> |RiderUid(n)| == 9 && RiderUid(n)[0] == '2'
    ensures RiderUid(n) == RiderUid(m) ==> n == m
  {
    if RiderUid(n) == RiderUid(m) {
      assert RiderUid(n)[1..] == Pad8(n) && RiderUid(m)[1..] == Pad8(m);
      Pad8RoundTrip(n);
      Pad8RoundTrip(m);
    }
  }

  // ---------------------------------------------------------------------------
  // ID values
  // ---------------------------------------------------------------------------

  /** `new ID(String s)`: the type is the first character, the UID the whole text. */
  function IdOfString(s: string): (id: Id)
    requires |s| > 0
    ensures id.uid == Some(s) && id.kind == s[0]
  {
    Id(s[0], Some(s))
  }

  /**
   * `ID.equals(other)`: true iff `other` is an ID (`Some`) whose UID equals this
   * one's. `None` stands for `null` and for any object that is not an ID. The
   * receiver's UID must be set, since the source calls `equals` on it.
   */
  function Equals(self: Id, other: Option<Id>): (r: bool)
    requires self.uid.Some?
    ensures r ==> other.Some? && other.value.uid == self.uid
    ensures other.Some? && other.value.uid == self.uid ==> r
  {
    match other
    case None => false
    case Some(o) => o.uid.Some? && self.uid.value == o.uid.value
  }

  /** ID equality is reflexive, symmetric and transitive on IDs with a UID, and a missing ID equals none. */
  lemma EqualsIsEquivalence(a: Id, b: Id, c: Id)
    requires a.uid.Some? && b.uid.Some? && c.uid.Some?
    ensures Equals(a, Some(a))
    ensures Equals(a, Some(b)) == Equals(b, Some(a))
    ensures Equals(a, Some(b)) && Equals(b, Some(c)) ==> Equals(a, Some(c))
    ensures !Equals(a, None)
  {
  }

  // ---------------------------------------------------------------------------
  // The registry
  // ---------------------------------------------------------------------------

  /** Some registered ID has UID `s`. */
  predicate Registered(reg: seq<Id>, s: string) {
    exists k :: 0 <= k < |reg| && reg[k].uid == Some(s)
  }

  /** Every registered ID has a UID (IDs made for an unknown type character have none). */
  predicate AllNamed(reg: seq<Id>) {
    forall k :: 0 <= k < |reg| ==> reg[k].uid.Some?
  }

  /**
   * `findIDString(t)` scans the list calling `equals` on each UID in turn, which
   * throws on a missing UID: the scan is safe when every UID met before the
   * first match is set.
   */
  predicate ScanSafe(reg: seq<Id>, t: string) {
    reg == [] || (reg[0].uid.Some? && (reg[0].uid.value == t || ScanSafe(reg[1..], t)))
  }

  /** The index of the first registered ID whose UID is `t`, or `|reg|` when there is none. */
  function UidIndex(reg: seq<Id>, t: string): (i: nat)
    ensures i <= |reg|
    ensures i < |reg| <==> Registered(reg, t)
    ensures i < |reg| ==> reg[i].uid == Some(t)
    ensures forall k :: 0 <= k < i ==> reg[k].uid != Some(t)
  {
    if reg == [] then 0
    else if reg[0].uid == Some(t) then 0
    else
      var i := 1 + UidIndex(reg[1..], t);
      assert forall k :: 1 <= k < |reg| ==> reg[k] == reg[1..][k - 1];
      i
  }

  /** A registry whose IDs all have UIDs can be scanned for any text. */
  lemma {:induction false} AllNamedScanSafe(reg: seq<Id>, t: string)
    requires AllNamed(reg)
    ensures ScanSafe(reg, t)
  {
    if reg != [] {
      assert AllNamed(reg[1..]) by {
        forall k | 0 <= k < |reg[1..]| ensures reg[1..][k].uid.Some? {
          assert reg[1..][k] == reg[k + 1];
        }
      }
      AllNamedScanSafe(reg[1..], t);
    }
  }

  /** The largest number any registered numeric UID reads as (0 for none). */
  function Bound(reg: seq<Id>): nat {
    if reg == [] then 0
    else
      var rest := Bound(reg[1..]);
      match reg[0].uid
      case Some(s) => if IsNumeric(s) && ParseNat(s) > rest then ParseNat(s) else rest
      case None => rest
  }

  /** Every registered numeric UID reads as at most `Bound(reg)`. */
  lemma {:induction false} BoundCovers(reg: seq<Id>, s: string)
    requires Registered(reg, s) && IsNumeric(s)
    ensures ParseNat(s) <= Bound(reg)
  {
    if reg[0].uid != Some(s) {
      var k :| 0 <= k < |reg| && reg[k].uid == Some(s);
      assert reg[1..][k - 1] == reg[k];
      BoundCovers(reg[1..], s);
    }
  }

  /**
   * The probes `fromString` made on a collision with numeric text `p`: every
   * number strictly between `p` and `k` was registered as text.
   */
  ghost predicate ProbedUpTo(reg: seq<Id>, p: nat, k: nat) {
    p < k && forall j :: p < j < k ==> Registered(reg, NatToString(j))
  }

  /**
   * One more collision of `fromString`: after a registered probe `temp` the
   * probes cover every number up to `temp + 1`, whose text reads back as that
   * number, and `temp` is within the registry's bound.
   */
  lemma ProbeStep(reg: seq<Id>, text: string, temp: string, k: nat)
    requires IsNumeric(text) && IsNumeric(temp) && Registered(reg, temp)
    requires temp != text ==> Registered(reg, text) && ProbedUpTo(reg, ParseNat(text), k) && temp == NatToString(k)
    ensures Registered(reg, text)
    ensures ParseNat(temp) <= Bound(reg)
    ensures ParseNat(NatToString(ParseNat(temp) + 1)) == ParseNat(temp) + 1
    ensures ProbedUpTo(reg, ParseNat(text), ParseNat(temp) + 1)
    ensures NatToString(ParseNat(temp) + 1) != text
    ensures temp != text ==> ParseNat(temp) == k
  {
    BoundCovers(reg, temp);
    if temp != text {
      ParseNatToString(k);
    }
    ParseNatToString(ParseNat(temp) + 1);
    if temp != text {
      assert ParseNat(temp) == k > ParseNat(text);
    }
  }

  /** The identity allocator: the static counters of `ID` and the static list of `IDGenerator`. */
  class IdAllocator {
    var cardCount: nat
    var riderCount: nat
    var registry: seq<Id>

    /** A fresh allocator: both counters at 0, nothing registered. */
    constructor ()
      ensures cardCount == 0 && riderCount == 0 && registry == []
    {
      cardCount, riderCount, registry := 0, 0, [];
    }

    /** `ID.getCount(type)`: the card counter for 'C'; the rider counter for any other character. */
    function GetCount(kind: char): (n: nat)
      reads this
      ensures kind == CARD ==> n == cardCount
      ensures kind != CARD ==> n == riderCount
    {
      if kind == CARD then cardCount else riderCount
    }

    /** `ID.addToCount(type)`: bump the counter of a card or rider type; any other character changes nothing. */
    method AddToCount(kind: char)
      modifies this`cardCount, this`riderCount
      ensures cardCount == old(cardCount) + (if kind == CARD then 1 else 0)
      ensures riderCount == old(riderCount) + (if kind == RIDER then 1 else 0)
    {
      if kind == CARD {
        cardCount := cardCount + 1;
      } else if kind == RIDER {
        riderCount := riderCount + 1;
      }
    }

    /**
     * `new ID(char type)`: a card ID takes the card counter's UID and bumps it, a
     * rider ID likewise with the rider counter; any other character leaves the
     * UID unset and the counters alone.
     */
    method NewId(kind: char) returns (id: Id)
      modifies this`cardCount, this`riderCount
      ensures id.kind == kind
      ensures kind == CARD ==> id.uid == Some(CardUid(old(cardCount)))
      ensures kind == RIDER ==> id.uid == Some(RiderUid(old(riderCount)))
      ensures kind != CARD && kind != RIDER ==> id.uid == None
      ensures cardCount == old(cardCount) + (if kind == CARD then 1 else 0)
      ensures riderCount == old(riderCount) + (if kind == RIDER then 1 else 0)
    {
      if kind == CARD {
        id := Id(kind, Some("1" + Pad8(cardCount)));
        cardCount := cardCount + 1;
      } else if kind == RIDER {
        id := Id(kind, Some("2" + Pad8(riderCount)));
        riderCount := riderCount + 1;
      } else {
        id := Id(kind, None);
      }
    }

    /** `IDGenerator.generateID(type)`: make an ID for the type and register it. */
    method GenerateId(kind: char) returns (id: Id)
      modifies this
      ensures registry == old(registry) + [id]
      ensures id.kind == kind
      ensures kind == CARD ==> id.uid == Some(CardUid(old(cardCount)))
      ensures kind == RIDER ==> id.uid == Some(RiderUid(old(riderCount)))
      ensures kind != CARD && kind != RIDER ==> id.uid == None
      ensures cardCount == old(cardCount) + (if kind == CARD then 1 else 0)
      ensures riderCount == old(riderCount) + (if kind == RIDER then 1 else 0)
    {
      id := NewId(kind);
      registry := registry + [id];
    }

    /** `IDGenerator.findIDString(t)`: the first registered ID whose UID is `t`, or `None`. */
    method FindIdString(t: string) returns (r: Option<Id>)
      requires ScanSafe(registry, t)
      ensures r.None? <==> !Registered(registry, t)
      ensures r.Some? ==> r.value == registry[UidIndex(registry, t)]
    {
      var i := 0;
      while i < |registry|
        invariant 0 <= i <= |registry|
        invariant forall k :: 0 <= k < i ==> registry[k].uid != Some(t)
        invariant ScanSafe(registry[i..], t)
      {
        assert registry[i..][0] == registry[i] && registry[i..][1..] == registry[i + 1..];
        if registry[i].uid.value == t {
          return Some(registry[i]);
        }
        i := i + 1;
      }
      return None;
    }

    /**
     * One collision step of `fromString`: rebuild the UID the counter of `kind`
     * would give next, bump that counter when the probe equals it, and return the
     * probe's successor as decimal text. For a type character other than 'C' the
     * source builds the rider-shaped UID.
     */
    method ProbeNext(kind: char, temp: string) returns (next: string)
      requires IsNumeric(temp)
      modifies this`cardCount, this`riderCount
      ensures next == NatToString(ParseNat(temp) + 1)
      ensures var hit := temp == (if kind == CARD then CardUid(old(cardCount)) else RiderUid(old(riderCount)));
              cardCount == old(cardCount) + (if hit && kind == CARD then 1 else 0) &&
              riderCount == old(riderCount) + (if hit && kind == RIDER then 1 else 0)
    {
      var intId := ParseNat(temp);
      var strId: string;
      if kind == CARD {
        strId := "1" + Pad8(GetCount(kind));
      } else {
        strId := "2" + Pad8(GetCount(kind));
      }
      if temp == strId {
        AddToCount(kind);
      }
      intId := intId + 1;
      next := NatToString(intId);
    }

    /**
     * `IDGenerator.fromString(text)`: register an ID with UID `text`, or, when that
     * UID is taken, with the first free text among `text+1`, `text+2`, ... read as
     * decimal numbers. A collision needs numeric text (the source parses it), and
     * every registered ID must have a UID (the scan calls `equals` on each).
     */
    method FromString(text: string) returns (id: Id)
      requires |text| > 0
      requires AllNamed(registry)
      requires Registered(registry, text) ==> IsNumeric(text)
      modifies this
      ensures registry == old(registry) + [id]
      ensures id.uid.Some? && |id.uid.value| > 0 && id == IdOfString(id.uid.value)
      ensures !Registered(old(registry), id.uid.value)
      ensures !Registered(old(registry), text) ==> id.uid == Some(text)
      ensures Registered(old(registry), text) ==>
                exists k :: ProbedUpTo(old(registry), ParseNat(text), k) && id.uid == Some(NatToString(k))
      ensures cardCount == old(cardCount) && riderCount == old(riderCount)
    {
      var kind := text[0];
      var temp := text;
      ghost var k: nat := 0;
      AllNamedScanSafe(registry, temp);
      var found := FindIdString(temp);
      while found.Some?
        invariant registry == old(registry)
        invariant cardCount == old(cardCount) && riderCount == old(riderCount)
        invariant |temp| > 0
        invariant found.Some? <==> Registered(registry, temp)
        invariant found.Some? ==> IsNumeric(text) && IsNumeric(temp)
        invariant temp != text ==>
                    Registered(registry, text) && IsNumeric(text) && IsNumeric(temp) &&
                    ProbedUpTo(registry, ParseNat(text), k) && temp == NatToString(k)
        invariant temp == text ==> k == 0
        invariant k <= Bound(registry) + 1
        decreases Bound(registry) + 1 - k
      {
        ProbeStep(registry, text, temp, k);
        k := ParseNat(temp) + 1;
        temp := ProbeNext(kind, temp);
        AllNamedScanSafe(registry, temp);
        found := FindIdString(temp);
      }
      id := IdOfString(temp);
      registry := registry + [id];
    }
  }
}
