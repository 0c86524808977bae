/**
 * The DailyTask custom resource: its shape, the values a freshly constructed
 * object carries, and its JSON form with the fixed wire property names.
 *
 * Reference-typed C# properties may be null and become `Option`s. Only the
 * three `V1ObjectMeta` properties the controller reads are modelled.
 */
module Models {
  import opened Wrappers
  import opened Ascii
  import Json
  import EnumMemberJsonConverter

  /** C#'s `int`. */
  newtype Int32 = x: int | -0x8000_0000 <= x < 0x8000_0000

  const DefaultApiVersion: string := "example.com/v1"
  const DefaultKind: string := "DailyTask"

  datatype ObjectMeta = ObjectMeta(
    name: Option<string>,
    namespace: Option<string>,
    resourceVersion: Option<string>)

  datatype V1DailyTaskSpec = V1DailyTaskSpec(
    taskName: Option<string>,
    description: Option<string>,
    priority: Int32)

  /** `DayInfo.Rating`: `Good` has the underlying value 0 and is the default. */
  datatype Rating = Good | Bad

  datatype DayInfo = DayInfo(time: Option<string>, day: Option<string>, rating: Rating)

  datatype V1DailyTaskStatus = V1DailyTaskStatus(today: Option<DayInfo>)

  datatype V1DailyTask = V1DailyTask(
    apiVersion: Option<string>,
    kind: Option<string>,
    metadata: Option<ObjectMeta>,
    spec: Option<V1DailyTaskSpec>,
    status: Option<V1DailyTaskStatus>)

  // ---------------------------------------------------------------------------
  // Freshly constructed objects (property initialisers and C# defaults)

  const NewObjectMeta: ObjectMeta := ObjectMeta(None, None, None)
  const NewSpec: V1DailyTaskSpec := V1DailyTaskSpec(None, None, 0)
  const NewDailyTask: V1DailyTask :=
    V1DailyTask(Some(DefaultApiVersion), Some(DefaultKind), Some(NewObjectMeta), Some(NewSpec), None)

  /** A fresh resource has the fixed API version and kind, empty metadata and spec,
      and no status. */
  lemma NewDailyTaskDefaults()
    ensures NewDailyTask.apiVersion == Some("example.com/v1")
    ensures NewDailyTask.kind == Some("DailyTask")
    ensures NewDailyTask.metadata == Some(ObjectMeta(None, None, None))
    ensures NewDailyTask.spec == Some(V1DailyTaskSpec(None, None, 0))
    ensures NewDailyTask.status.None?
  {
  }

  // ---------------------------------------------------------------------------
  // The rating enum

  /** Underlying value of each member. */
  function Ordinal(r: Rating): int {
    match r
    case Good => 0
    case Bad => 1
  }

  /** `Rating` as an enum type for the enum-member codec: two members, no aliases. */
  const RatingMembers: seq<EnumMemberJsonConverter.Member> :=
    [EnumMemberJsonConverter.Member("Good", None), EnumMemberJsonConverter.Member("Bad", None)]

  /** The member's symbolic name. */
  function RatingName(r: Rating): string {
    match r
    case Good => "Good"
    case Bad => "Bad"
  }

  /** Writing with the stock string-enum converter bound to the `rating` property. */
  function EncodeRating(r: Rating): Json.Value {
    Json.String(RatingName(r))
  }

  /** Reading with the stock string-enum converter: a member name matched ignoring case,
      or one of the two underlying numbers; anything else is an error. */
  function DecodeRating(v: Json.Value): (r: Result<Rating, string>)
    ensures r.Success? && v.String? ==> EqualsIgnoreCase(v.s, RatingName(r.value))
  {
    match v
    case String(s) =>
      if EqualsIgnoreCase(s, "Good") then Success(Good)
      else if EqualsIgnoreCase(s, "Bad") then Success(Bad)
      else Failure("rating: unknown member name")
    case Number(n) =>
      if n == 0 then Success(Good)
      else if n == 1 then Success(Bad)
      else Failure("rating: undeclared value")
    case _ => Failure("rating: not a string or number")
  }

  /** Both converters write a rating as its member name: no member declares an alias. */
  lemma RatingWrittenAsName(r: Rating)
    ensures EncodeRating(r) == Json.String(EnumMemberJsonConverter.Encode(RatingMembers, Ordinal(r)))
    ensures EncodeRating(r) == Json.String(if r == Good then "Good" else "Bad")
  {
  }

  /** The two converters read member names alike, and disagree on an unknown name:
      the enum-member codec would yield `Good`, the stock converter bound to the
      property rejects it. */
  lemma RatingReadersOnUnknownName(s: string)
    requires !EqualsIgnoreCase(s, "Good") && !EqualsIgnoreCase(s, "Bad")
    ensures EnumMemberJsonConverter.Decode(RatingMembers, Json.String(s)) == Ordinal(Good)
    ensures DecodeRating(Json.String(s)).Failure?
  {
    EqualsIgnoreCaseIsEquivalence(s, "Good", "Good");
    EqualsIgnoreCaseIsEquivalence(s, "Bad", "Bad");
  }

  /** Every rating reads back as itself, whichever case the name is written in. */
  lemma RatingRoundTrip(r: Rating, s: string)
    requires EqualsIgnoreCase(s, RatingName(r))
    ensures DecodeRating(Json.String(s)) == Success(r)
    ensures EnumMemberJsonConverter.Decode(RatingMembers, Json.String(s)) == Ordinal(r)
  {
    EqualsIgnoreCaseIsEquivalence(s, RatingName(r), "Good");
    EqualsIgnoreCaseIsEquivalence(s, RatingName(r), "Bad");
    EqualsIgnoreCaseIsEquivalence(s, "Bad", "Good");
  }

  // ---------------------------------------------------------------------------
  // Writing (declaration order, nulls written out)

  function EncodeString(s: Option<string>): Json.Value {
    match s
    case Some(x) => Json.String(x)
    case None => Json.Null
  }

  function EncodeMeta(m: ObjectMeta): Json.Value {
    Json.Object([
      ("name", EncodeString(m.name)),
      ("namespace", EncodeString(m.namespace)),
      ("resourceVersion", EncodeString(m.resourceVersion))])
  }

  function EncodeSpec(s: V1DailyTaskSpec): Json.Value {
    Json.Object([
      ("taskName", EncodeString(s.taskName)),
      ("description", EncodeString(s.description)),
      ("priority", Json.Number(s.priority as int))])
  }

  function EncodeDayInfo(d: DayInfo): Json.Value {
    Json.Object([
      ("time", EncodeString(d.time)),
      ("day", EncodeString(d.day)),
      ("rating", EncodeRating(d.rating))])
  }

  function EncodeStatus(s: V1DailyTaskStatus): Json.Value {
    Json.Object([("today", if s.today.Some? then EncodeDayInfo(s.today.value) else Json.Null)])
  }

  function EncodeMetaField(m: Option<ObjectMeta>): Json.Value {
    if m.Some? then EncodeMeta(m.value) else Json.Null
  }

  function EncodeSpecField(s: Option<V1DailyTaskSpec>): Json.Value {
    if s.Some? then EncodeSpec(s.value) else Json.Null
  }

  function EncodeStatusField(s: Option<V1DailyTaskStatus>): Json.Value {
    if s.Some? then EncodeStatus(s.value) else Json.Null
  }

  function EncodeTask(t: V1DailyTask): Json.Value {
    Json.Object([
      ("apiVersion", EncodeString(t.apiVersion)),
      ("kind", EncodeString(t.kind)),
      ("metadata", EncodeMetaField(t.metadata)),
      ("spec", EncodeSpecField(t.spec)),
      ("status", EncodeStatusField(t.status))])
  }

  /** The wire property names are fixed lower-camel-case names, written in declaration order. */
  lemma WireNames(t: V1DailyTask, d: DayInfo, s: V1DailyTaskSpec)
    ensures Json.Keys(EncodeTask(t).fields) == ["apiVersion", "kind", "metadata", "spec", "status"]
    ensures Json.Keys(EncodeStatus(V1DailyTaskStatus(Some(d))).fields) == ["today"]
    ensures Json.Keys(EncodeDayInfo(d).fields) == ["time", "day", "rating"]
    ensures Json.Keys(EncodeSpec(s).fields) == ["taskName", "description", "priority"]
  {
  }

  // ---------------------------------------------------------------------------
  // Reading, as `JsonSerializer.Deserialize` does it: the properties of an object
  // are applied in document order to a freshly constructed object. A known property
  // is read and assigned (a nested object is read into a fresh instance), an unknown
  // one is skipped, and a value of the wrong kind throws. So an absent property keeps
  // its initialiser's value, `null` sets null, and when a name repeats every
  // occurrence is read and the last one stays.

  const NewDayInfo: DayInfo := DayInfo(None, None, Good)
  const NewStatus: V1DailyTaskStatus := V1DailyTaskStatus(None)

  function ReadString(v: Json.Value, path: string): Result<Option<string>, string> {
    match v
    case Null => Success(None)
    case String(s) => Success(Some(s))
    case _ => Failure(path + ": not a string")
  }

  /** `int` has no null: only an in-range number reads. */
  function ReadInt32(v: Json.Value, path: string): Result<Int32, string> {
    match v
    case Number(n) =>
      if -0x8000_0000 <= n < 0x8000_0000 then Success(n as Int32) else Failure(path + ": out of range")
    case _ => Failure(path + ": not a number")
  }

  // `metadata`

  function MetaProperty(m: ObjectMeta, k: string, v: Json.Value): Result<ObjectMeta, string> {
    if k == "name" then (var x :- ReadString(v, "metadata.name"); Success(m.(name := x)))
    else if k == "namespace" then (var x :- ReadString(v, "metadata.namespace"); Success(m.(namespace := x)))
    else if k == "resourceVersion" then
      (var x :- ReadString(v, "metadata.resourceVersion"); Success(m.(resourceVersion := x)))
    else Success(m)
  }

  /** The properties `fs` applied in order to `m`. */
  function ReadMeta(m: ObjectMeta, fs: seq<(string, Json.Value)>): Result<ObjectMeta, string>
    decreases |fs|
  {
    if fs == [] then Success(m)
    else
      var m1 :- ReadMeta(m, fs[..|fs| - 1]);
      MetaProperty(m1, fs[|fs| - 1].0, fs[|fs| - 1].1)
  }

  function ReadMetaField(v: Json.Value): Result<Option<ObjectMeta>, string> {
    match v
    case Null => Success(None)
    case Object(fs) => (var m :- ReadMeta(NewObjectMeta, fs); Success(Some(m)))
    case _ => Failure("metadata: not an object")
  }

  // `spec`

  function SpecProperty(s: V1DailyTaskSpec, k: string, v: Json.Value): Result<V1DailyTaskSpec, string> {
    if k == "taskName" then (var x :- ReadString(v, "spec.taskName"); Success(s.(taskName := x)))
    else if k == "description" then (var x :- ReadString(v, "spec.description"); Success(s.(description := x)))
    else if k == "priority" then (var x :- ReadInt32(v, "spec.priority"); Success(s.(priority := x)))
    else Success(s)
  }

  function ReadSpec(s: V1DailyTaskSpec, fs: seq<(string, Json.Value)>): Result<V1DailyTaskSpec, string>
    decreases |fs|
  {
    if fs == [] then Success(s)
    else
      var s1 :- ReadSpec(s, fs[..|fs| - 1]);
      SpecProperty(s1, fs[|fs| - 1].0, fs[|fs| - 1].1)
  }

  function ReadSpecField(v: Json.Value): Result<Option<V1DailyTaskSpec>, string> {
    match v
    case Null => Success(None)
    case Object(fs) => (var s :- ReadSpec(NewSpec, fs); Success(Some(s)))
    case _ => Failure("spec: not an object")
  }

  // `status.today`

  function DayInfoProperty(d: DayInfo, k: string, v: Json.Value): Result<DayInfo, string> {
    if k == "time" then (var x :- ReadString(v, "status.today.time"); Success(d.(time := x)))
    else if k == "day" then (var x :- ReadString(v, "status.today.day"); Success(d.(day := x)))
    else if k == "rating" then (var x :- DecodeRating(v); Success(d.(rating := x)))
    else Success(d)
  }

  function ReadDayInfo(d: DayInfo, fs: seq<(string, Json.Value)>): Result<DayInfo, string>
    decreases |fs|
  {
    if fs == [] then Success(d)
    else
      var d1 :- ReadDayInfo(d, fs[..|fs| - 1]);
      DayInfoProperty(d1, fs[|fs| - 1].0, fs[|fs| - 1].1)
  }

  function ReadToday(v: Json.Value): Result<Option<DayInfo>, string> {
    match v
    case Null => Success(None)
    case Object(fs) => (var d :- ReadDayInfo(NewDayInfo, fs); Success(Some(d)))
    case _ => Failure("status.today: not an object")
  }

  // `status`

  function StatusProperty(s: V1DailyTaskStatus, k: string, v: Json.Value): Result<V1DailyTaskStatus, string> {
    if k == "today" then (var x :- ReadToday(v); Success(s.(today := x)))
    else Success(s)
  }

  function ReadStatus(s: V1DailyTaskStatus, fs: seq<(string, Json.Value)>): Result<V1DailyTaskStatus, string>
    decreases |fs|
  {
    if fs == [] then Success(s)
    else
      var s1 :- ReadStatus(s, fs[..|fs| - 1]);
      StatusProperty(s1, fs[|fs| - 1].0, fs[|fs| - 1].1)
  }

  function ReadStatusField(v: Json.Value): Result<Option<V1DailyTaskStatus>, string> {
    match v
    case Null => Success(None)
    case Object(fs) => (var s :- ReadStatus(NewStatus, fs); Success(Some(s)))
    case _ => Failure("status: not an object")
  }

  // The resource

  function TaskProperty(t: V1DailyTask, k: string, v: Json.Value): Result<V1DailyTask, string> {
    if k == "apiVersion" then (var x :- ReadString(v, "apiVersion"); Success(t.(apiVersion := x)))
    else if k == "kind" then (var x :- ReadString(v, "kind"); Success(t.(kind := x)))
    else if k == "metadata" then (var x :- ReadMetaField(v); Success(t.(metadata := x)))
    else if k == "spec" then (var x :- ReadSpecField(v); Success(t.(spec := x)))
    else if k == "status" then (var x :- ReadStatusField(v); Success(t.(status := x)))
    else Success(t)
  }

  function ReadTask(t: V1DailyTask, fs: seq<(string, Json.Value)>): Result<V1DailyTask, string>
    decreases |fs|
  {
    if fs == [] then Success(t)
    else
      var t1 :- ReadTask(t, fs[..|fs| - 1]);
      TaskProperty(t1, fs[|fs| - 1].0, fs[|fs| - 1].1)
  }

  /** `JsonSerializer.Deserialize<V1DailyTask>`: `null` reads as a null object. */
  function DecodeTask(v: Json.Value): Result<Option<V1DailyTask>, string> {
    match v
    case Null => Success(None)
    case Object(fs) => (var t :- ReadTask(NewDailyTask, fs); Success(Some(t)))
    case _ => Failure("not an object")
  }

  // ---------------------------------------------------------------------------
  // Reference reading by last occurrence: each property takes the value read from
  // the last occurrence of its name, and keeps the starting value when its name is
  // absent.

  /** Each `<kind>ByLast`: the value read from the last occurrence of `key` when it
      reads, else `absent`. */
  function StringByLast(fs: seq<(string, Json.Value)>, key: string, path: string, absent: Option<string>): Option<string> {
    var f := Json.Get(fs, key);
    if f.Some? && ReadString(f.value, path).Success? then ReadString(f.value, path).value else absent
  }

  function Int32ByLast(fs: seq<(string, Json.Value)>, key: string, path: string, absent: Int32): Int32 {
    var f := Json.Get(fs, key);
    if f.Some? && ReadInt32(f.value, path).Success? then ReadInt32(f.value, path).value else absent
  }

  function RatingByLast(fs: seq<(string, Json.Value)>, key: string, absent: Rating): Rating {
    var f := Json.Get(fs, key);
    if f.Some? && DecodeRating(f.value).Success? then DecodeRating(f.value).value else absent
  }

  function TodayByLast(fs: seq<(string, Json.Value)>, key: string, absent: Option<DayInfo>): Option<DayInfo> {
    var f := Json.Get(fs, key);
    if f.Some? && ReadToday(f.value).Success? then ReadToday(f.value).value else absent
  }

  function MetaFieldByLast(fs: seq<(string, Json.Value)>, key: string, absent: Option<ObjectMeta>): Option<ObjectMeta> {
    var f := Json.Get(fs, key);
    if f.Some? && ReadMetaField(f.value).Success? then ReadMetaField(f.value).value else absent
  }

  function SpecFieldByLast(fs: seq<(string, Json.Value)>, key: string, absent: Option<V1DailyTaskSpec>): Option<V1DailyTaskSpec> {
    var f := Json.Get(fs, key);
    if f.Some? && ReadSpecField(f.value).Success? then ReadSpecField(f.value).value else absent
  }

  function StatusFieldByLast(fs: seq<(string, Json.Value)>, key: string, absent: Option<V1DailyTaskStatus>): Option<V1DailyTaskStatus> {
    var f := Json.Get(fs, key);
    if f.Some? && ReadStatusField(f.value).Success? then ReadStatusField(f.value).value else absent
  }

  function MetaByLast(m: ObjectMeta, fs: seq<(string, Json.Value)>): ObjectMeta {
    ObjectMeta(
      StringByLast(fs, "name", "metadata.name", m.name),
      StringByLast(fs, "namespace", "metadata.namespace", m.namespace),
      StringByLast(fs, "resourceVersion", "metadata.resourceVersion", m.resourceVersion))
  }

  function SpecByLast(s: V1DailyTaskSpec, fs: seq<(string, Json.Value)>): V1DailyTaskSpec {
    V1DailyTaskSpec(
      StringByLast(fs, "taskName", "spec.taskName", s.taskName),
      StringByLast(fs, "description", "spec.description", s.description),
      Int32ByLast(fs, "priority", "spec.priority", s.priority))
  }

  function DayInfoByLast(d: DayInfo, fs: seq<(string, Json.Value)>): DayInfo {
    DayInfo(
      StringByLast(fs, "time", "status.today.time", d.time),
      StringByLast(fs, "day", "status.today.day", d.day),
      RatingByLast(fs, "rating", d.rating))
  }

  function StatusByLast(s: V1DailyTaskStatus, fs: seq<(string, Json.Value)>): V1DailyTaskStatus {
    V1DailyTaskStatus(TodayByLast(fs, "today", s.today))
  }

  function TaskByLast(t: V1DailyTask, fs: seq<(string, Json.Value)>): V1DailyTask {
    V1DailyTask(
      StringByLast(fs, "apiVersion", "apiVersion", t.apiVersion),
      StringByLast(fs, "kind", "kind", t.kind),
      MetaFieldByLast(fs, "metadata", t.metadata),
      SpecFieldByLast(fs, "spec", t.spec),
      StatusFieldByLast(fs, "status", t.status))
  }

  // ---------------------------------------------------------------------------
  // Reading in document order succeeds exactly when every occurrence of every known
  // property reads, even a repeated one, and then agrees with reading by last
  // occurrence.

  /** Reading one more property by last occurrence is applying it to what the
      properties before it gave. */
  lemma MetaByLastSnoc(m: ObjectMeta, init: seq<(string, Json.Value)>, k: string, v: Json.Value)
    ensures MetaProperty(MetaByLast(m, init), k, v).Success? ==>
      MetaProperty(MetaByLast(m, init), k, v).value == MetaByLast(m, init + [(k, v)])
  {
    Json.GetSnoc(init, k, v, "name");
    Json.GetSnoc(init, k, v, "namespace");
    Json.GetSnoc(init, k, v, "resourceVersion");
  }

  lemma {:induction false} ReadMetaByLastOccurrence(m: ObjectMeta, fs: seq<(string, Json.Value)>)
    ensures ReadMeta(m, fs).Success? <==> forall i :: 0 <= i < |fs| ==> MetaProperty(m, fs[i].0, fs[i].1).Success?
    ensures ReadMeta(m, fs).Success? ==> ReadMeta(m, fs).value == MetaByLast(m, fs)
    decreases |fs|
  {
    if fs != [] {
      var n := |fs| - 1;
      var init := fs[..n];
      var (k, v) := fs[n];
      assert fs == init + [(k, v)];
      ReadMetaByLastOccurrence(m, init);
      assert forall i :: 0 <= i < n ==> init[i] == fs[i];
      if ReadMeta(m, init).Success? {
        var m1 := ReadMeta(m, init).value;
        assert MetaProperty(m1, k, v).Success? == MetaProperty(m, k, v).Success?;
        MetaByLastSnoc(m, init, k, v);
      }
    }
  }

  /** Reading one more property by last occurrence is applying it to what the
      properties before it gave. */
  lemma SpecByLastSnoc(s: V1DailyTaskSpec, init: seq<(string, Json.Value)>, k: string, v: Json.Value)
    ensures SpecProperty(SpecByLast(s, init), k, v).Success? ==>
      SpecProperty(SpecByLast(s, init), k, v).value == SpecByLast(s, init + [(k, v)])
  {
    Json.GetSnoc(init, k, v, "taskName");
    Json.GetSnoc(init, k, v, "description");
    Json.GetSnoc(init, k, v, "priority");
  }

  lemma {:induction false} ReadSpecByLastOccurrence(s: V1DailyTaskSpec, fs: seq<(string, Json.Value)>)
    ensures ReadSpec(s, fs).Success? <==> forall i :: 0 <= i < |fs| ==> SpecProperty(s, fs[i].0, fs[i].1).Success?
    ensures ReadSpec(s, fs).Success? ==> ReadSpec(s, fs).value == SpecByLast(s, fs)
    decreases |fs|
  {
    if fs != [] {
      var n := |fs| - 1;
      var init := fs[..n];
      var (k, v) := fs[n];
      assert fs == init + [(k, v)];
      ReadSpecByLastOccurrence(s, init);
      assert forall i :: 0 <= i < n ==> init[i] == fs[i];
      if ReadSpec(s, init).Success? {
        var s1 := ReadSpec(s, init).value;
        assert SpecProperty(s1, k, v).Success? == SpecProperty(s, k, v).Success?;
        SpecByLastSnoc(s, init, k, v);
      }
    }
  }

  /** Reading one more property by last occurrence is applying it to what the
      properties before it gave. */
  lemma DayInfoByLastSnoc(d: DayInfo, init: seq<(string, Json.Value)>, k: string, v: Json.Value)
    ensures DayInfoProperty(DayInfoByLast(d, init), k, v).Success? ==>
      DayInfoProperty(DayInfoByLast(d, init), k, v).value == DayInfoByLast(d, init + [(k, v)])
  {
    Json.GetSnoc(init, k, v, "time");
    Json.GetSnoc(init, k, v, "day");
    Json.GetSnoc(init, k, v, "rating");
  }

  lemma {:induction false} ReadDayInfoByLastOccurrence(d: DayInfo, fs: seq<(string, Json.Value)>)
    ensures ReadDayInfo(d, fs).Success? <==> forall i :: 0 <= i < |fs| ==> DayInfoProperty(d, fs[i].0, fs[i].1).Success?
    ensures ReadDayInfo(d, fs).Success? ==> ReadDayInfo(d, fs).value == DayInfoByLast(d, fs)
    decreases |fs|
  {
    if fs != [] {
      var n := |fs| - 1;
      var init := fs[..n];
      var (k, v) := fs[n];
      assert fs == init + [(k, v)];
      ReadDayInfoByLastOccurrence(d, init);
      assert forall i :: 0 <= i < n ==> init[i] == fs[i];
      if ReadDayInfo(d, init).Success? {
        var d1 := ReadDayInfo(d, init).value;
        assert DayInfoProperty(d1, k, v).Success? == DayInfoProperty(d, k, v).Success?;
        DayInfoByLastSnoc(d, init, k, v);
      }
    }
  }

  /** Reading one more property by last occurrence is applying it to what the
      properties before it gave. */
  lemma StatusByLastSnoc(s: V1DailyTaskStatus, init: seq<(string, Json.Value)>, k: string, v: Json.Value)
    ensures StatusProperty(StatusByLast(s, init), k, v).Success? ==>
      StatusProperty(StatusByLast(s, init), k, v).value == StatusByLast(s, init + [(k, v)])
  {
    Json.GetSnoc(init, k, v, "today");
  }

  lemma {:induction false} ReadStatusByLastOccurrence(s: V1DailyTaskStatus, fs: seq<(string, Json.Value)>)
    ensures ReadStatus(s, fs).Success? <==> forall i :: 0 <= i < |fs| ==> StatusProperty(s, fs[i].0, fs[i].1).Success?
    ensures ReadStatus(s, fs).Success? ==> ReadStatus(s, fs).value == StatusByLast(s, fs)
    decreases |fs|
  {
    if fs != [] {
      var n := |fs| - 1;
      var init := fs[..n];
      var (k, v) := fs[n];
      assert fs == init + [(k, v)];
      ReadStatusByLastOccurrence(s, init);
      assert forall i :: 0 <= i < n ==> init[i] == fs[i];
      if ReadStatus(s, init).Success? {
        var s1 := ReadStatus(s, init).value;
        assert StatusProperty(s1, k, v).Success? == StatusProperty(s, k, v).Success?;
        StatusByLastSnoc(s, init, k, v);
      }
    }
  }

  /** Reading one more property by last occurrence is applying it to what the
      properties before it gave. */
  /** Each `<kind>ByLastSnoc`: one more property leaves another key's reading as it
      was, and gives its own key the value it reads. */
  lemma StringByLastSnoc(init: seq<(string, Json.Value)>, k: string, v: Json.Value, key: string, path: string, absent: Option<string>)
    ensures k != key ==> StringByLast(init + [(k, v)], key, path, absent) == StringByLast(init, key, path, absent)
    ensures k == key && ReadString(v, path).Success? ==>
      StringByLast(init + [(k, v)], key, path, absent) == ReadString(v, path).value
  {
    Json.GetSnoc(init, k, v, key);
  }

  lemma MetaFieldByLastSnoc(init: seq<(string, Json.Value)>, k: string, v: Json.Value, key: string, absent: Option<ObjectMeta>)
    ensures k != key ==> MetaFieldByLast(init + [(k, v)], key, absent) == MetaFieldByLast(init, key, absent)
    ensures k == key && ReadMetaField(v).Success? ==>
      MetaFieldByLast(init + [(k, v)], key, absent) == ReadMetaField(v).value
  {
    Json.GetSnoc(init, k, v, key);
  }

  lemma SpecFieldByLastSnoc(init: seq<(string, Json.Value)>, k: string, v: Json.Value, key: string, absent: Option<V1DailyTaskSpec>)
    ensures k != key ==> SpecFieldByLast(init + [(k, v)], key, absent) == SpecFieldByLast(init, key, absent)
    ensures k == key && ReadSpecField(v).Success? ==>
      SpecFieldByLast(init + [(k, v)], key, absent) == ReadSpecField(v).value
  {
    Json.GetSnoc(init, k, v, key);
  }

  lemma StatusFieldByLastSnoc(init: seq<(string, Json.Value)>, k: string, v: Json.Value, key: string, absent: Option<V1DailyTaskStatus>)
    ensures k != key ==> StatusFieldByLast(init + [(k, v)], key, absent) == StatusFieldByLast(init, key, absent)
    ensures k == key && ReadStatusField(v).Success? ==>
      StatusFieldByLast(init + [(k, v)], key, absent) == ReadStatusField(v).value
  {
    Json.GetSnoc(init, k, v, key);
  }

  lemma TaskByLastSnoc(t: V1DailyTask, init: seq<(string, Json.Value)>, k: string, v: Json.Value)
    ensures TaskProperty(TaskByLast(t, init), k, v).Success? ==>
      TaskProperty(TaskByLast(t, init), k, v).value == TaskByLast(t, init + [(k, v)])
  {
    StringByLastSnoc(init, k, v, "apiVersion", "apiVersion", t.apiVersion);
    StringByLastSnoc(init, k, v, "kind", "kind", t.kind);
    MetaFieldByLastSnoc(init, k, v, "metadata", t.metadata);
    SpecFieldByLastSnoc(init, k, v, "spec", t.spec);
    StatusFieldByLastSnoc(init, k, v, "status", t.status);
  }

  lemma {:induction false} ReadTaskByLastOccurrence(t: V1DailyTask, fs: seq<(string, Json.Value)>)
    ensures ReadTask(t, fs).Success? <==> forall i :: 0 <= i < |fs| ==> TaskProperty(t, fs[i].0, fs[i].1).Success?
    ensures ReadTask(t, fs).Success? ==> ReadTask(t, fs).value == TaskByLast(t, fs)
    decreases |fs|
  {
    if fs != [] {
      var n := |fs| - 1;
      var init := fs[..n];
      var (k, v) := fs[n];
      assert fs == init + [(k, v)];
      ReadTaskByLastOccurrence(t, init);
      assert forall i :: 0 <= i < n ==> init[i] == fs[i];
      if ReadTask(t, init).Success? {
        var t1 := ReadTask(t, init).value;
        assert TaskProperty(t1, k, v).Success? == TaskProperty(t, k, v).Success?;
        TaskByLastSnoc(t, init, k, v);
      }
    }
  }

  /** A repeated property is read at each occurrence: `{"spec": 5, "spec": {}}` does
      not read, although its last `spec` would. */
  lemma RepeatedPropertyReadEachTime()
    ensures DecodeTask(Json.Object([("spec", Json.Number(5)), ("spec", Json.Object([]))])).Failure?
    ensures DecodeTask(Json.Object([("spec", Json.Object([]))])) == Success(Some(NewDailyTask))
  {
    var fs := [("spec", Json.Number(5)), ("spec", Json.Object([]))];
    ReadTaskByLastOccurrence(NewDailyTask, fs);
    assert TaskProperty(NewDailyTask, fs[0].0, fs[0].1).Failure?;
    var gs := [("spec", Json.Object([]))];
    assert gs[..0] == [];
    assert ReadSpec(NewSpec, []) == Success(NewSpec);
  }

  /** Reading an empty object gives a freshly constructed resource. */
  lemma DecodeEmptyObject()
    ensures DecodeTask(Json.Object([])) == Success(Some(NewDailyTask))
  {
  }

  // ---------------------------------------------------------------------------
  // Round trips

  lemma StringRoundTrip(s: Option<string>, path: string)
    ensures ReadString(EncodeString(s), path) == Success(s)
  {
  }

  lemma MetaRoundTrip(m: ObjectMeta)
    ensures ReadMeta(NewObjectMeta, EncodeMeta(m).fields) == Success(m)
  {
    var fs := EncodeMeta(m).fields;
    Json.GetThree(fs[0].0, fs[0].1, fs[1].0, fs[1].1, fs[2].0, fs[2].1);
    StringRoundTrip(m.name, "metadata.name");
    StringRoundTrip(m.namespace, "metadata.namespace");
    StringRoundTrip(m.resourceVersion, "metadata.resourceVersion");
    ReadMetaByLastOccurrence(NewObjectMeta, fs);
    assert forall i :: 0 <= i < |fs| ==> MetaProperty(NewObjectMeta, fs[i].0, fs[i].1).Success?;
  }

  lemma SpecRoundTrip(s: V1DailyTaskSpec)
    ensures ReadSpec(NewSpec, EncodeSpec(s).fields) == Success(s)
  {
    var fs := EncodeSpec(s).fields;
    Json.GetThree(fs[0].0, fs[0].1, fs[1].0, fs[1].1, fs[2].0, fs[2].1);
    StringRoundTrip(s.taskName, "spec.taskName");
    StringRoundTrip(s.description, "spec.description");
    ReadSpecByLastOccurrence(NewSpec, fs);
    assert forall i :: 0 <= i < |fs| ==> SpecProperty(NewSpec, fs[i].0, fs[i].1).Success?;
  }

  lemma DayInfoRoundTrip(d: DayInfo)
    ensures ReadDayInfo(NewDayInfo, EncodeDayInfo(d).fields) == Success(d)
  {
    var fs := EncodeDayInfo(d).fields;
    Json.GetThree(fs[0].0, fs[0].1, fs[1].0, fs[1].1, fs[2].0, fs[2].1);
    StringRoundTrip(d.time, "status.today.time");
    StringRoundTrip(d.day, "status.today.day");
    EqualsIgnoreCaseIsEquivalence(RatingName(d.rating), RatingName(d.rating), RatingName(d.rating));
    RatingRoundTrip(d.rating, RatingName(d.rating));
    ReadDayInfoByLastOccurrence(NewDayInfo, fs);
    assert forall i :: 0 <= i < |fs| ==> DayInfoProperty(NewDayInfo, fs[i].0, fs[i].1).Success?;
    assert DayInfoByLast(NewDayInfo, fs) == d;
  }

  lemma TodayRoundTrip(d: Option<DayInfo>)
    ensures ReadToday(if d.Some? then EncodeDayInfo(d.value) else Json.Null) == Success(d)
  {
    if d.Some? { DayInfoRoundTrip(d.value); }
  }

  lemma StatusRoundTrip(s: V1DailyTaskStatus)
    ensures ReadStatus(NewStatus, EncodeStatus(s).fields) == Success(s)
  {
    var fs := EncodeStatus(s).fields;
    TodayRoundTrip(s.today);
    assert fs[..0] == [];
  }

  /** Each top-level property of a written resource is found under its wire name. */
  lemma TaskLookups(t: V1DailyTask)
    ensures var fs := EncodeTask(t).fields;
      && Json.Get(fs, "apiVersion") == Some(EncodeString(t.apiVersion))
      && Json.Get(fs, "kind") == Some(EncodeString(t.kind))
      && Json.Get(fs, "metadata") == Some(EncodeMetaField(t.metadata))
      && Json.Get(fs, "spec") == Some(EncodeSpecField(t.spec))
      && Json.Get(fs, "status") == Some(EncodeStatusField(t.status))
  {
    var fs := EncodeTask(t).fields;
    Json.GetDistinct(fs, 0);
    Json.GetDistinct(fs, 1);
    Json.GetDistinct(fs, 2);
    Json.GetDistinct(fs, 3);
    Json.GetDistinct(fs, 4);
  }

  lemma MetaFieldRoundTrip(m: Option<ObjectMeta>)
    ensures ReadMetaField(EncodeMetaField(m)) == Success(m)
  {
    if m.Some? { MetaRoundTrip(m.value); }
  }

  lemma SpecFieldRoundTrip(s: Option<V1DailyTaskSpec>)
    ensures ReadSpecField(EncodeSpecField(s)) == Success(s)
  {
    if s.Some? { SpecRoundTrip(s.value); }
  }

  lemma StatusFieldRoundTrip(s: Option<V1DailyTaskStatus>)
    ensures ReadStatusField(EncodeStatusField(s)) == Success(s)
  {
    if s.Some? { StatusRoundTrip(s.value); }
  }

  /** Every property of a written resource reads. */
  lemma TaskPropertiesRead(t: V1DailyTask)
    ensures var fs := EncodeTask(t).fields;
      forall i :: 0 <= i < |fs| ==> TaskProperty(NewDailyTask, fs[i].0, fs[i].1).Success?
  {
    var fs := EncodeTask(t).fields;
    StringRoundTrip(t.apiVersion, "apiVersion");
    StringRoundTrip(t.kind, "kind");
    MetaFieldRoundTrip(t.metadata);
    SpecFieldRoundTrip(t.spec);
    StatusFieldRoundTrip(t.status);
    assert TaskProperty(NewDailyTask, fs[0].0, fs[0].1).Success?;
    assert TaskProperty(NewDailyTask, fs[1].0, fs[1].1).Success?;
    assert TaskProperty(NewDailyTask, fs[2].0, fs[2].1).Success?;
    assert TaskProperty(NewDailyTask, fs[3].0, fs[3].1).Success?;
    assert TaskProperty(NewDailyTask, fs[4].0, fs[4].1).Success?;
  }

  /** Reading a written resource by last occurrence gives the resource. */
  lemma TaskByLastOfWritten(t: V1DailyTask)
    ensures TaskByLast(NewDailyTask, EncodeTask(t).fields) == t
  {
    TaskLookups(t);
    StringRoundTrip(t.apiVersion, "apiVersion");
    StringRoundTrip(t.kind, "kind");
    MetaFieldRoundTrip(t.metadata);
    SpecFieldRoundTrip(t.spec);
    StatusFieldRoundTrip(t.status);
  }

  /** Round trip: every resource reads back as itself from what is written for it. */
  lemma TaskRoundTrip(t: V1DailyTask)
    ensures DecodeTask(EncodeTask(t)) == Success(Some(t))
  {
    var fs := EncodeTask(t).fields;
    TaskByLastOfWritten(t);
    TaskPropertiesRead(t);
    ReadTaskByLastOccurrence(NewDailyTask, fs);
  }
}
