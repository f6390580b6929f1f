/**
 * Slot types and the compatibility test `isValidConnection`.
 *
 * A slot type is whatever value a slot's `type` property holds: a string
 * (possibly a comma-separated list such as "number,string"), a number (the
 * event/action marker -1, or 0 for "any"), or nothing at all.
 */
module SlotTypes {
  import opened Base

  /** A slot's declared type. `TNone` stands for both `undefined` and `null`. */
  datatype SlotType = TStr(s: string) | TNum(n: int) | TNone

  /** `LiteGraph.EVENT` and `LiteGraph.ACTION` share the value -1. */
  const EVENT: SlotType := TNum(-1)
  const ACTION: SlotType := TNum(-1)

  /** Loose equality `a == b` between two slot-type values. */
  predicate LooseEq(a: SlotType, b: SlotType)
  {
    match (a, b)
    case (TStr(x), TStr(y)) => x == y
    case (TNum(x), TNum(y)) => x == y
    case (TStr(x), TNum(y)) => LooseStrNumEq(x, y)
    case (TNum(x), TStr(y)) => LooseStrNumEq(y, x)
    case (TNone, TNone) => true
    case _ => false
  }

  predicate TypeTruthy(t: SlotType)
  {
    match t
    case TStr(s) => s != ""
    case TNum(n) => n != 0
    case TNone => false
  }

  /** `String(t)`. */
  function TypeString(t: SlotType): string
  {
    match t
    case TStr(s) => s
    case TNum(n) => IntToString(n)
    case TNone => "undefined"
  }

  /** The wildcard spellings: `""`, `"*"`, `0`, and no type at all. */
  predicate IsWildcard(t: SlotType)
  {
    t == TStr("") || t == TStr("*") || t == TNum(0) || t == TNone
  }

  /** The first step of `isValidConnection`: `""` and `"*"` become 0. */
  function Normalise(t: SlotType): (r: SlotType)
    ensures TypeTruthy(r) <==> !IsWildcard(t)
    ensures !IsWildcard(t) ==> r == t
  {
    if LooseEq(t, TStr("")) || t == TStr("*") then TNum(0) else t
  }

  /** The lower-cased string form a type is compared by once it is not a wildcard. */
  function Lowered(t: SlotType): string
  {
    Lower(TypeString(t))
  }

  /** 1 when the lower-cased pair still contains a list separator, else 0. */
  function CommaRank(a: SlotType, b: SlotType): nat
  {
    if ',' in Lowered(Normalise(a)) || ',' in Lowered(Normalise(b)) then 1 else 0
  }

  /**
   * `LiteGraph.isValidConnection(type_a, type_b)`: a wildcard on either side,
   * loosely equal types, or EVENT into ACTION are compatible; otherwise the
   * lower-cased types must be equal, or, when either is a comma-separated
   * list, some element of one must be compatible with some element of the
   * other.
   */
  function IsValidConnection(typeA: SlotType, typeB: SlotType): bool
    decreases CommaRank(typeA, typeB), 1
  {
    var a := Normalise(typeA);
    var b := Normalise(typeB);
    if !TypeTruthy(a) || !TypeTruthy(b) || LooseEq(a, b) || (LooseEq(a, EVENT) && LooseEq(b, ACTION)) then
      true
    else
      var la := Lower(TypeString(a));
      var lb := Lower(TypeString(b));
      if ',' !in la && ',' !in lb then la == lb
      else AnyPairValid(Split(la, ','), Split(lb, ','))
  }

  /** The two nested loops over the elements of both lists. */
  function AnyPairValid(xs: seq<string>, ys: seq<string>): bool
    requires forall i :: 0 <= i < |xs| ==> ',' !in xs[i]
    requires forall j :: 0 <= j < |ys| ==> ',' !in ys[j]
    decreases 0, 3, |xs|
  {
    if |xs| == 0 then false
    else AnyValidWith(xs[0], ys) || AnyPairValid(xs[1..], ys)
  }

  function AnyValidWith(x: string, ys: seq<string>): bool
    requires ',' !in x
    requires forall j :: 0 <= j < |ys| ==> ',' !in ys[j]
    decreases 0, 2, |ys|
  {
    if |ys| == 0 then false
    else
      ElementRankZero(x, ys[0]);
      IsValidConnection(TStr(x), TStr(ys[0])) || AnyValidWith(x, ys[1..])
  }

  lemma ElementRankZero(x: string, y: string)
    requires ',' !in x && ',' !in y
    ensures CommaRank(TStr(x), TStr(y)) == 0
  {
    NoCommaLowered(TStr(x));
    NoCommaLowered(TStr(y));
  }

  lemma NoCommaLowered(t: SlotType)
    requires t.TStr? && ',' !in t.s
    ensures ',' !in Lowered(Normalise(t))
  {
    LowerKeepsChar(TypeString(Normalise(t)), ',');
    if Normalise(t) != t {
      assert TypeString(Normalise(t)) == "0";
    }
  }

  // ---------------------------------------------------------------------------
  // A reference definition of compatibility and its agreement with the code
  // ---------------------------------------------------------------------------

  /** The lower-cased elements of a (possibly comma-separated) type. */
  function Tokens(t: SlotType): seq<string>
  {
    Split(Lowered(t), ',')
  }

  /** Two list elements match when either is empty or "*", or they are the same word. */
  predicate TokenMatch(x: string, y: string)
  {
    x == "" || x == "*" || y == "" || y == "*" || x == y
  }

  /**
   * Compatibility stated without recursion: a wildcard on either side, loosely
   * equal types, or a matching pair of list elements.
   */
  ghost predicate Compatible(a: SlotType, b: SlotType)
  {
    IsWildcard(a) || IsWildcard(b) || LooseEq(a, b) ||
    exists i, j :: 0 <= i < |Tokens(a)| && 0 <= j < |Tokens(b)| && TokenMatch(Tokens(a)[i], Tokens(b)[j])
  }

  lemma TokensLowered(t: SlotType)
    ensures forall i :: 0 <= i < |Tokens(t)| ==> IsLowered(Tokens(t)[i]) && ',' !in Tokens(t)[i]
  {
    var l := Lowered(t);
    assert IsLowered(l);
    forall i | 0 <= i < |Tokens(t)|
      ensures IsLowered(Tokens(t)[i])
    {
      var tok := Tokens(t)[i];
      forall k | 0 <= k < |tok| ensures !IsUpperAscii(tok[k]) {
        assert tok[k] in tok;
        assert tok[k] in l;
      }
    }
  }

  /** Two comma-free, lower-case list elements are compatible exactly when they match. */
  lemma ElementValidIffMatch(x: string, y: string)
    requires ',' !in x && ',' !in y && IsLowered(x) && IsLowered(y)
    ensures IsValidConnection(TStr(x), TStr(y)) <==> TokenMatch(x, y)
  {
    LoweredFixed(x);
    LoweredFixed(y);
    if !(x == "" || x == "*" || y == "" || y == "*") {
      assert Normalise(TStr(x)) == TStr(x);
      assert Normalise(TStr(y)) == TStr(y);
    }
  }

  /** The nested loops find a pair exactly when some pair of elements match. */
  lemma {:induction false} AnyPairValidIff(xs: seq<string>, ys: seq<string>)
    requires forall i :: 0 <= i < |xs| ==> ',' !in xs[i] && IsLowered(xs[i])
    requires forall j :: 0 <= j < |ys| ==> ',' !in ys[j] && IsLowered(ys[j])
    ensures AnyPairValid(xs, ys) <==> exists i, j :: 0 <= i < |xs| && 0 <= j < |ys| && TokenMatch(xs[i], ys[j])
    decreases |xs|
  {
    if |xs| > 0 {
      AnyValidWithIff(xs[0], ys);
      AnyPairValidIff(xs[1..], ys);
      if exists i, j :: 0 <= i < |xs| && 0 <= j < |ys| && TokenMatch(xs[i], ys[j]) {
        var i, j :| 0 <= i < |xs| && 0 <= j < |ys| && TokenMatch(xs[i], ys[j]);
        if i > 0 {
          assert TokenMatch(xs[1..][i - 1], ys[j]);
        }
      }
      if AnyPairValid(xs[1..], ys) {
        var i, j :| 0 <= i < |xs[1..]| && 0 <= j < |ys| && TokenMatch(xs[1..][i], ys[j]);
        assert TokenMatch(xs[i + 1], ys[j]);
      }
    }
  }

  lemma {:induction false} AnyValidWithIff(x: string, ys: seq<string>)
    requires ',' !in x && IsLowered(x)
    requires forall j :: 0 <= j < |ys| ==> ',' !in ys[j] && IsLowered(ys[j])
    ensures AnyValidWith(x, ys) <==> exists j :: 0 <= j < |ys| && TokenMatch(x, ys[j])
    decreases |ys|
  {
    if |ys| > 0 {
      ElementValidIffMatch(x, ys[0]);
      AnyValidWithIff(x, ys[1..]);
      if exists j :: 0 <= j < |ys| && TokenMatch(x, ys[j]) {
        var j :| 0 <= j < |ys| && TokenMatch(x, ys[j]);
        if j > 0 {
          assert TokenMatch(x, ys[1..][j - 1]);
        }
      }
      if AnyValidWith(x, ys[1..]) {
        var j :| 0 <= j < |ys[1..]| && TokenMatch(x, ys[1..][j]);
        assert TokenMatch(x, ys[j + 1]);
      }
    }
  }

  /** A string other than "" and "*" never lower-cases to one of them. */
  lemma LoweredNotWildcard(t: SlotType)
    requires !IsWildcard(t)
    ensures Lowered(t) != "" && Lowered(t) != "*"
  {
    if t.TNum? {
      var s := IntToString(t.n);
      assert s[0] == '-' || '0' <= s[0] <= '9';
      assert Lowered(t)[0] == s[0];
    }
  }

  /** Past the early exits, the code compares the lower-cased types or their elements. */
  lemma UnfoldPastEarlyExits(a: SlotType, b: SlotType)
    requires !IsWildcard(a) && !IsWildcard(b) && !LooseEq(a, b)
    ensures ',' !in Lowered(a) && ',' !in Lowered(b) ==> (IsValidConnection(a, b) <==> Lowered(a) == Lowered(b))
    ensures ',' in Lowered(a) || ',' in Lowered(b) ==> IsValidConnection(a, b) == AnyPairValid(Tokens(a), Tokens(b))
  {
    assert Normalise(a) == a && Normalise(b) == b;
    assert !(LooseEq(a, EVENT) && LooseEq(b, ACTION));
  }

  lemma CompatibleWithoutCommas(a: SlotType, b: SlotType)
    requires !IsWildcard(a) && !IsWildcard(b) && !LooseEq(a, b)
    requires ',' !in Lowered(a) && ',' !in Lowered(b)
    ensures Compatible(a, b) <==> Lowered(a) == Lowered(b)
  {
    var la := Lowered(a);
    var lb := Lowered(b);
    SplitNoSep(la, ',');
    SplitNoSep(lb, ',');
    assert Tokens(a) == [la] && Tokens(b) == [lb];
    LoweredNotWildcard(a);
    LoweredNotWildcard(b);
    if la == lb {
      assert TokenMatch(Tokens(a)[0], Tokens(b)[0]);
    }
  }

  /** `isValidConnection` decides exactly the reference compatibility relation. */
  lemma IsValidConnectionMeansCompatible(a: SlotType, b: SlotType)
    ensures IsValidConnection(a, b) <==> Compatible(a, b)
  {
    if IsWildcard(a) || IsWildcard(b) || LooseEq(a, b) {
      assert IsValidConnection(a, b);
    } else {
      UnfoldPastEarlyExits(a, b);
      if ',' !in Lowered(a) && ',' !in Lowered(b) {
        CompatibleWithoutCommas(a, b);
      } else {
        TokensLowered(a);
        TokensLowered(b);
        AnyPairValidIff(Tokens(a), Tokens(b));
      }
    }
  }

  /** Compatibility does not depend on the direction of the connection. */
  lemma IsValidConnectionSymmetric(a: SlotType, b: SlotType)
    ensures IsValidConnection(a, b) == IsValidConnection(b, a)
  {
    IsValidConnectionMeansCompatible(a, b);
    IsValidConnectionMeansCompatible(b, a);
    if Compatible(a, b) && !(IsWildcard(a) || IsWildcard(b) || LooseEq(a, b)) {
      var i, j :| 0 <= i < |Tokens(a)| && 0 <= j < |Tokens(b)| && TokenMatch(Tokens(a)[i], Tokens(b)[j]);
      assert TokenMatch(Tokens(b)[j], Tokens(a)[i]);
    }
    if Compatible(b, a) && !(IsWildcard(a) || IsWildcard(b) || LooseEq(b, a)) {
      var i, j :| 0 <= i < |Tokens(b)| && 0 <= j < |Tokens(a)| && TokenMatch(Tokens(b)[i], Tokens(a)[j]);
      assert TokenMatch(Tokens(a)[j], Tokens(b)[i]);
    }
  }

  /** Plain (comma-free, non-wildcard) types are compatible exactly when they agree ignoring case. */
  lemma PlainTypesCompareCaseInsensitively(a: string, b: string)
    requires ',' !in a && ',' !in b
    requires a != "" && a != "*" && b != "" && b != "*"
    ensures IsValidConnection(TStr(a), TStr(b)) <==> Lower(a) == Lower(b)
  {
    LowerKeepsChar(a, ',');
    LowerKeepsChar(b, ',');
  }

  /** Wildcards, equal types and EVENT into ACTION are always accepted. */
  lemma AlwaysAccepted(a: SlotType, b: SlotType)
    ensures IsWildcard(a) ==> IsValidConnection(a, b) && IsValidConnection(b, a)
    ensures IsValidConnection(a, a)
    ensures IsValidConnection(EVENT, ACTION)
  {
  }

  /** Different plain types are rejected, and case does not matter. */
  lemma PlainTypeExamples()
    ensures !IsValidConnection(TStr("vec3"), TStr("number"))
    ensures IsValidConnection(TStr("Number"), TStr("number"))
  {
    PlainTypesCompareCaseInsensitively("vec3", "number");
    assert Lower("vec3")[0] == 'v';
    PlainTypesCompareCaseInsensitively("Number", "number");
    assert Lower("Number") == "number";
    assert Lower("number") == "number";
  }
}
