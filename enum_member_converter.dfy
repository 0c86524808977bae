/**
 * The enum codec registered in the serializer options: every member of an
 * enum type is written as its declared `[EnumMember]` alias, or as its
 * symbolic name when it declares none; the `Read` method is case-insensitive
 * and lenient, returning the zero value for a token it does not recognise.
 *
 * An enum type is given by its members in declaration order; the member at
 * position i has the underlying value i, so the zero value `default(T)` is 0.
 */
module EnumMemberJsonConverter {
  import opened Wrappers
  import opened Ascii
  import Json

  /** One declared enum member: its symbolic name and its optional `[EnumMember(Value = …)]`. */
  datatype Member = Member(name: string, alias: Option<string>)

  /** `default(T)`: the value 0. */
  const Default: int := 0

  /** The string a member is written as: its alias if declared, otherwise its name. */
  function WireName(m: Member): string {
    m.alias.GetOr(m.name)
  }

  /** The number a string of decimal digits spells, most significant digit first. */
  function DigitsValue(s: string): int {
    if s == [] then 0 else DigitsValue(s[..|s| - 1]) * 10 + (s[|s| - 1] as int - '0' as int)
  }

  /** The number a decimal string spells, with an optional leading '-'. */
  function DecimalValue(s: string): int {
    if s != [] && s[0] == '-' then -DigitsValue(s[1..]) else DigitsValue(s)
  }

  /** Decimal digits of a natural number, as `ToString()` writes them. */
  function NatDigits(n: nat): (s: string)
    ensures |s| > 0
    ensures forall i :: 0 <= i < |s| ==> '0' <= s[i] <= '9'
    ensures DigitsValue(s) == n
    ensures |s| > 1 ==> s[0] != '0'
  {
    var d := ('0' as int + n % 10) as char;
    if n < 10 then [d]
    else
      var s := NatDigits(n / 10) + [d];
      assert s[..|s| - 1] == NatDigits(n / 10);
      s
  }

  /** `ToString()` of an enum value that no member declares: its number in decimal,
      which reads back as that number. */
  function Decimal(v: int): (s: string)
    ensures |s| > 0
    ensures s[0] == '-' <==> v < 0
    ensures DecimalValue(s) == v
    ensures forall i :: (if v < 0 then 1 else 0) <= i < |s| ==> '0' <= s[i] <= '9'
    ensures |s| > (if v < 0 then 2 else 1) ==> s[if v < 0 then 1 else 0] != '0'
  {
    if v < 0 then
      var s := "-" + NatDigits(-v);
      assert s[1..] == NatDigits(-v);
      s
    else NatDigits(v)
  }

  /** Wire strings must be usable as dictionary keys that do not collide ignoring case. */
  predicate DistinctWireNames(ms: seq<Member>) {
    && (forall i :: 0 <= i < |ms| ==> WireName(ms[i]) != "")
    && (forall i, j :: 0 <= i < j < |ms| ==> !EqualsIgnoreCase(WireName(ms[i]), WireName(ms[j])))
  }

  // ---------------------------------------------------------------------------
  // Reference definitions, stated directly on the member list

  /** The last member whose wire string equals `s` ignoring case, if any. */
  function LastMatch(ms: seq<Member>, s: string): (r: Option<nat>)
    ensures r.Some? ==> r.value < |ms| && EqualsIgnoreCase(WireName(ms[r.value]), s)
    ensures r.Some? ==> forall k :: r.value < k < |ms| ==> !EqualsIgnoreCase(WireName(ms[k]), s)
    ensures r.None? <==> forall k :: 0 <= k < |ms| ==> !EqualsIgnoreCase(WireName(ms[k]), s)
  {
    if ms == [] then None
    else if EqualsIgnoreCase(WireName(ms[|ms| - 1]), s) then Some(|ms| - 1)
    else
      var r := LastMatch(ms[..|ms| - 1], s);
      assert forall k :: 0 <= k < |ms| - 1 ==> ms[..|ms| - 1][k] == ms[k];
      r
  }

  /** What `Read` returns for a token: the matching member for a non-empty string
      that some wire string equals ignoring case, the zero value otherwise. */
  function Decode(ms: seq<Member>, token: Json.Value): int {
    match token
    case String(s) =>
      var m := LastMatch(ms, s);
      if s != "" && m.Some? then m.value else Default
    case _ => Default
  }

  /** What `Write` writes for a value: the member's wire string, else the number. */
  function Encode(ms: seq<Member>, v: int): string {
    if 0 <= v < |ms| then WireName(ms[v]) else Decimal(v)
  }

  // ---------------------------------------------------------------------------
  // The two dictionaries as the constructor leaves them

  /** `_enumToString` after inserting the members in order. */
  function ForwardTable(ms: seq<Member>): map<int, string>
    decreases |ms|
  {
    if ms == [] then map[]
    else ForwardTable(ms[..|ms| - 1])[|ms| - 1 := WireName(ms[|ms| - 1])]
  }

  /** `_stringToEnum` after inserting the members in order, keyed by the folded
      string; a later member overwrites an earlier one that collides ignoring case. */
  function ReverseTable(ms: seq<Member>): map<string, int>
    decreases |ms|
  {
    if ms == [] then map[]
    else ReverseTable(ms[..|ms| - 1])[Fold(WireName(ms[|ms| - 1])) := |ms| - 1]
  }

  /** The forward table holds exactly the declared values, each mapped to its wire string. */
  lemma {:induction false} ForwardTableContents(ms: seq<Member>, v: int)
    ensures v in ForwardTable(ms) <==> 0 <= v < |ms|
    ensures 0 <= v < |ms| ==> ForwardTable(ms)[v] == WireName(ms[v])
    decreases |ms|
  {
    if ms != [] {
      var init := ms[..|ms| - 1];
      ForwardTableContents(init, v);
      if 0 <= v < |ms| - 1 {
        assert init[v] == ms[v];
      }
    }
  }

  /** A case-insensitive lookup in the reverse table finds exactly the last member
      whose wire string matches. */
  lemma {:induction false} ReverseTableAgrees(ms: seq<Member>, s: string)
    ensures Fold(s) in ReverseTable(ms) <==> LastMatch(ms, s).Some?
    ensures LastMatch(ms, s).Some? ==> ReverseTable(ms)[Fold(s)] == LastMatch(ms, s).value
    decreases |ms|
  {
    if ms != [] {
      var init := ms[..|ms| - 1];
      ReverseTableAgrees(init, s);
      EqualsIgnoreCaseIffFoldsEqual(WireName(ms[|ms| - 1]), s);
    }
  }

  // ---------------------------------------------------------------------------
  // The converter object

  /** `EnumMemberConverter<T>`: the two dictionaries built once from the members of `T`. */
  class EnumMemberConverter {
    const members: seq<Member>
    var enumToString: map<int, string>
    var stringToEnum: map<string, int>

    /** The dictionaries hold what the constructor put in them. */
    ghost predicate Valid()
      reads this
    {
      enumToString == ForwardTable(members) && stringToEnum == ReverseTable(members)
    }

    /** Fills both dictionaries, one member at a time in declaration order. */
    constructor (members: seq<Member>)
      ensures this.members == members
      ensures Valid()
    {
      this.members := members;
      enumToString := map[];
      stringToEnum := map[];
      new;
      var i := 0;
      while i < |members|
        invariant 0 <= i <= |members|
        invariant enumToString == ForwardTable(members[..i])
        invariant stringToEnum == ReverseTable(members[..i])
      {
        var wire := WireName(members[i]);
        enumToString := enumToString[i := wire];
        stringToEnum := stringToEnum[Fold(wire) := i];
        assert members[..i + 1][..i] == members[..i];
        i := i + 1;
      }
      assert members[..|members|] == members;
    }

    /** Reads a value from the current token: the zero value for a token that is not
        a string, for the empty string and for an unknown string. The method itself
        never throws. */
    function Read(token: Json.Value): (r: int)
      reads this
      requires Valid()
      ensures r == Decode(members, token)
    {
      match token
      case String(s) =>
        ReverseTableAgrees(members, s);
        if s == "" || Fold(s) !in stringToEnum then Default else stringToEnum[Fold(s)]
      case _ => Default
    }

    /** Writes a value: its table string when it has one, otherwise `ToString()`. */
    function Write(v: int): (r: string)
      reads this
      requires Valid()
      ensures r == Encode(members, v)
    {
      ForwardTableContents(members, v);
      if v in enumToString then enumToString[v] else Decimal(v)
    }
  }

  // ---------------------------------------------------------------------------
  // Properties of the codec

  /** Every declared member is written as its alias when it has one, else as its name. */
  lemma EncodeDeclared(ms: seq<Member>, v: int)
    requires 0 <= v < |ms|
    ensures ms[v].alias.Some? ==> Encode(ms, v) == ms[v].alias.value
    ensures ms[v].alias.None? ==> Encode(ms, v) == ms[v].name
  {
  }

  /** A token that is not a JSON string reads as the zero value. */
  lemma DecodeNonString(ms: seq<Member>, token: Json.Value)
    requires !token.String?
    ensures Decode(ms, token) == Default
  {
  }

  /** The empty string and any string no wire string matches read as the zero value. */
  lemma DecodeUnknown(ms: seq<Member>, s: string)
    requires s == "" || forall k :: 0 <= k < |ms| ==> !EqualsIgnoreCase(WireName(ms[k]), s)
    ensures Decode(ms, Json.String(s)) == Default
  {
  }

  /** Reading yields either the zero value or a declared member whose wire string
      matches the input ignoring case. */
  lemma DecodeIsMemberOrDefault(ms: seq<Member>, token: Json.Value)
    ensures var r := Decode(ms, token);
      r == Default || (0 <= r < |ms| && token.String? && EqualsIgnoreCase(WireName(ms[r]), token.s))
  {
  }

  /** Strings equal ignoring case find the same last match. */
  lemma {:induction false} LastMatchIgnoresCase(ms: seq<Member>, s: string, t: string)
    requires EqualsIgnoreCase(s, t)
    ensures LastMatch(ms, s) == LastMatch(ms, t)
    decreases |ms|
  {
    if ms != [] {
      var w := WireName(ms[|ms| - 1]);
      EqualsIgnoreCaseIsEquivalence(w, s, t);
      EqualsIgnoreCaseIsEquivalence(w, t, s);
      EqualsIgnoreCaseIsEquivalence(s, t, w);
      LastMatchIgnoresCase(ms[..|ms| - 1], s, t);
    }
  }

  /** Reading is case-insensitive: strings equal ignoring case read as the same value. */
  lemma DecodeIgnoresCase(ms: seq<Member>, s: string, t: string)
    requires EqualsIgnoreCase(s, t)
    ensures Decode(ms, Json.String(s)) == Decode(ms, Json.String(t))
  {
    LastMatchIgnoresCase(ms, s, t);
  }

  /** Round trip: with non-empty wire strings that are pairwise distinct ignoring case,
      reading what was written for a declared member gives that member back. */
  lemma RoundTrip(ms: seq<Member>, v: int)
    requires DistinctWireNames(ms)
    requires 0 <= v < |ms|
    ensures Decode(ms, Json.String(Encode(ms, v))) == v
  {
    var w := WireName(ms[v]);
    EqualsIgnoreCaseIsEquivalence(w, w, w);
    var m := LastMatch(ms, w);
    assert m.Some?;
    if m.value != v {
      assert v < m.value;
      assert EqualsIgnoreCase(WireName(ms[m.value]), w);
      EqualsIgnoreCaseIsEquivalence(WireName(ms[m.value]), w, w);
      assert false;
    }
  }

  /** On a collision ignoring case the later member owns the reverse entry: the earlier
      member is still written as its own wire string, but that string reads back as
      the last colliding member, which comes at or after `j`. */
  lemma CollisionLaterWins(ms: seq<Member>, i: int, j: int)
    requires 0 <= i < j < |ms|
    requires WireName(ms[i]) != ""
    requires EqualsIgnoreCase(WireName(ms[i]), WireName(ms[j]))
    ensures Encode(ms, i) == WireName(ms[i])
    ensures Decode(ms, Json.String(Encode(ms, i))) != i
    ensures Decode(ms, Json.String(Encode(ms, i))) >= j
  {
    EqualsIgnoreCaseIsEquivalence(WireName(ms[i]), WireName(ms[j]), WireName(ms[i]));
  }
}
