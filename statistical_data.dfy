/** The statistical store: data types (what to capture), data entries (captured traffic) and
    the many-to-many association between them, kept as three in-memory tables with the
    database's autoincrement counters. */
module StatisticalStore {
  import opened Wrappers
  import Decimal
  import CompositeErrors

  /** A data type. A zero protocol or port is a wildcard when matching traffic. */
  datatype DataType = DataType(id: nat, name: string, forecasting: bool, networkProtocol: nat,
                               transportProtocol: nat, port: nat)

  /** A stored data entry; `direction` is 0 for RX and 1 for TX. */
  datatype Data = Data(id: nat, time: int, bytes: nat, direction: nat)

  /** Aggregated captured traffic offered for storage. */
  datatype RawData = RawData(bytes: nat, networkProtocol: nat, transportProtocol: nat, srcPort: nat,
                             dstPort: nat, time: int, direction: nat)

  /** One row of the association table data_to_types. */
  datatype Link = Link(dataId: nat, typeId: nat)

  /** Why a store operation was refused: the validator's message, a violated unique
      constraint, or a data type that cannot be found. */
  datatype StoreError = Rejected(message: string) | Conflict | Missing

  /** The three tables (keyed by primary key) and the next autoincrement values. */
  datatype Store = Store(types: map<nat, DataType>, data: map<nat, Data>, links: set<Link>,
                         nextTypeId: nat, nextDataId: nat)

  const MAX_NAME_LENGTH := 255
  const MAX_PORT := 65535
  const MAX_TRANSPORT_PROTOCOL := 255
  const MAX_NETWORK_PROTOCOL := 65535

  const EMPTY_STORE := Store(map[], map[], {}, 1, 1)

  // ---------------------------------------------------------------------------------------
  // Validation of a data type's fields
  // ---------------------------------------------------------------------------------------

  predicate NameInRange(dt: DataType) {
    0 < |dt.name| <= MAX_NAME_LENGTH
  }

  predicate FieldsValid(dt: DataType) {
    NameInRange(dt) && dt.port <= MAX_PORT && dt.transportProtocol <= MAX_TRANSPORT_PROTOCOL &&
    dt.networkProtocol <= MAX_NETWORK_PROTOCOL
  }

  /** The entry a broken rule contributes, or nothing. */
  function Rule(broken: bool, description: string, now: string): seq<CompositeErrors.ErrorEntry> {
    if broken then [CompositeErrors.ErrorEntry(1, description, now)] else []
  }

  function NameDescription(dt: DataType): (d: string)
    ensures '\n' !in dt.name ==> '\n' !in d
  {
    "data type name: " + dt.name + ": length of the name must " + "be longer than 0 and " +
    "shorter than 256 characters"
  }

  function PortDescription(dt: DataType): (d: string)
    ensures '\n' !in d
  {
    NoNewlineInNumeral(dt.port);
    "data type port: " + Decimal.NatToString(dt.port) + ": maximum value of the " +
    "port identification is 65535"
  }

  function TransportDescription(dt: DataType): (d: string)
    ensures '\n' !in d
  {
    NoNewlineInNumeral(dt.transportProtocol);
    "data type transport protocol: " + Decimal.NatToString(dt.transportProtocol) +
    ": maximum value of the " + "transport protocol " + "identification is 255"
  }

  function NetworkDescription(dt: DataType): (d: string)
    ensures '\n' !in d
  {
    NoNewlineInNumeral(dt.networkProtocol);
    "data type network protocol: " + Decimal.NatToString(dt.networkProtocol) +
    ": maximum value of the " + "network protocol " + "identification is 65535"
  }

  /** The errors the validator collects, one per violated rule, in the order the rules are
      checked: name, port, transport protocol, network protocol. */
  function Violations(dt: DataType, now: string): seq<CompositeErrors.ErrorEntry> {
    Rule(!NameInRange(dt), NameDescription(dt), now) +
    Rule(dt.port > MAX_PORT, PortDescription(dt), now) +
    Rule(dt.transportProtocol > MAX_TRANSPORT_PROTOCOL, TransportDescription(dt), now) +
    Rule(dt.networkProtocol > MAX_NETWORK_PROTOCOL, NetworkDescription(dt), now)
  }

  /** Number of the four rules a data type breaks. */
  function BrokenRules(dt: DataType): nat {
    (if !NameInRange(dt) then 1 else 0) + (if dt.port > MAX_PORT then 1 else 0) +
    (if dt.transportProtocol > MAX_TRANSPORT_PROTOCOL then 1 else 0) +
    (if dt.networkProtocol > MAX_NETWORK_PROTOCOL then 1 else 0)
  }

  /** The validator: no error exactly for valid fields, otherwise the composite message of
      the collected violations. */
  function CheckDataType(dt: DataType, now: string): (err: Option<string>)
    ensures err.None? <==> FieldsValid(dt)
    ensures err.Some? ==> err.value == CompositeErrors.Message(Violations(dt, now))
  {
    CompositeErrors.Evaluated(Violations(dt, now))
  }

  /** One error, all with id 1 and the same clock reading, per broken rule. */
  lemma ViolationsCount(dt: DataType, now: string)
    ensures |Violations(dt, now)| == BrokenRules(dt)
    ensures forall i :: 0 <= i < |Violations(dt, now)| ==>
              Violations(dt, now)[i].id == 1 && Violations(dt, now)[i].time == now
  {
  }

  lemma NoNewlineInNumeral(n: nat)
    ensures '\n' !in Decimal.NatToString(n)
  {
    var s := Decimal.NatToString(n);
    forall i | 0 <= i < |s|
      ensures s[i] != '\n'
    {
      assert Decimal.IsDigit(s[i]);
    }
  }

  /** The validator's message has one line per broken rule. */
  lemma CheckDataTypeLines(dt: DataType, now: string)
    requires '\n' !in dt.name && '\n' !in now
    requires !FieldsValid(dt)
    ensures CompositeErrors.CountNewlines(CheckDataType(dt, now).value) == BrokenRules(dt)
  {
    var v := Violations(dt, now);
    ViolationsCount(dt, now);
    forall i | 0 <= i < |v|
      ensures CompositeErrors.SingleLine(v[i])
    {
    }
    CompositeErrors.MessageLineCount(v);
  }

  // ---------------------------------------------------------------------------------------
  // Matching captured traffic against data types
  // ---------------------------------------------------------------------------------------

  /** The condition of the query that selects the data types describing a captured frame:
      a zero network protocol matches everything; otherwise the network protocol must be
      equal, and then a zero transport protocol matches, or the transport protocol must be
      equal and the port zero or equal to the source or the destination port. */
  predicate Matches(t: DataType, raw: RawData) {
    || t.networkProtocol == 0
    || (t.networkProtocol == raw.networkProtocol &&
        (|| t.transportProtocol == 0
         || (t.transportProtocol == raw.transportProtocol &&
             (t.port == 0 || t.port == raw.srcPort || t.port == raw.dstPort))))
  }

  /** A data type whose three fields are all set matches exactly the frames that carry those
      protocols and that port on either side. */
  lemma MatchesFullySpecified(t: DataType, raw: RawData)
    requires t.networkProtocol != 0 && t.transportProtocol != 0 && t.port != 0
    ensures Matches(t, raw) <==>
              t.networkProtocol == raw.networkProtocol && t.transportProtocol == raw.transportProtocol &&
              (t.port == raw.srcPort || t.port == raw.dstPort)
  {
  }

  /** Clearing a field of a data type makes it match at least the same frames. */
  lemma MatchesWiden(t: DataType, raw: RawData)
    requires Matches(t, raw)
    ensures Matches(t.(port := 0), raw)
    ensures Matches(t.(transportProtocol := 0), raw)
    ensures Matches(t.(networkProtocol := 0), raw)
  {
  }

  function MatchingTypes(types: map<nat, DataType>, raw: RawData): set<nat> {
    set k | k in types && Matches(types[k], raw)
  }

  /** Number of data types of a list that match a frame. */
  function CountMatching(ts: seq<DataType>, raw: RawData): nat {
    if ts == [] then 0 else (if Matches(ts[0], raw) then 1 else 0) + CountMatching(ts[1..], raw)
  }

  const CAPTURE_TYPES: seq<DataType> := [
    DataType(1, "COM01", false, 200, 45, 8080),
    DataType(2, "COM02", false, 200, 45, 0),
    DataType(3, "COM03", false, 200, 0, 0),
    DataType(4, "COM04", false, 0, 0, 0)]

  /** Frames of the capture scenario; each one's port appears on both sides. */
  function CaptureFrame(bytes: nat, networkProtocol: nat, transportProtocol: nat, port: nat): RawData {
    RawData(bytes, networkProtocol, transportProtocol, port, port, 0, 0)
  }

  /** The scenario of four data types of decreasing specificity and seven frames: the frames
      are described by 1, 2, 3, 4, 2, 1 and 3 data types. */
  lemma CaptureScenarioCounts()
    ensures CountMatching(CAPTURE_TYPES, CaptureFrame(8, 45, 11, 2)) == 1
    ensures CountMatching(CAPTURE_TYPES, CaptureFrame(15, 200, 3, 15)) == 2
    ensures CountMatching(CAPTURE_TYPES, CaptureFrame(789, 200, 45, 80)) == 3
    ensures CountMatching(CAPTURE_TYPES, CaptureFrame(454, 200, 45, 8080)) == 4
    ensures CountMatching(CAPTURE_TYPES, CaptureFrame(1, 200, 60, 45)) == 2
    ensures CountMatching(CAPTURE_TYPES, CaptureFrame(2, 450, 22, 8025)) == 1
    ensures CountMatching(CAPTURE_TYPES, CaptureFrame(1200, 200, 45, 80)) == 3
  {
  }

  // ---------------------------------------------------------------------------------------
  // The integrity of the store
  // ---------------------------------------------------------------------------------------

  /** Two data types may live side by side: different names and different capture triples. */
  predicate Distinct(a: DataType, b: DataType) {
    a.name != b.name &&
    (a.networkProtocol, a.transportProtocol, a.port) != (b.networkProtocol, b.transportProtocol, b.port)
  }

  predicate Linked(links: set<Link>, dataId: nat) {
    exists l :: l in links && l.dataId == dataId
  }

  /** The types a data entry is associated with. */
  function TypesOf(links: set<Link>, dataId: nat): set<nat> {
    set l | l in links && l.dataId == dataId :: l.typeId
  }

  /** What the operations keep true of the tables: primary keys agree with the rows and lie
      below the autoincrement counters, associations refer to existing rows, the unique
      constraints hold, stored types passed the validator, and no data entry is orphaned. */
  ghost predicate Coherent(st: Store) {
    && st.nextTypeId >= 1 && st.nextDataId >= 1
    && (forall k :: k in st.types ==> st.types[k].id == k && k < st.nextTypeId && FieldsValid(st.types[k]))
    && (forall k :: k in st.data ==> st.data[k].id == k && k < st.nextDataId)
    && (forall k :: k in st.types ==> k > 0)
    && (forall k :: k in st.data ==> k > 0)
    && (forall l :: l in st.links ==> l.dataId in st.data && l.typeId in st.types)
    && (forall a, b :: a in st.types && b in st.types && a != b ==> Distinct(st.types[a], st.types[b]))
    && (forall k :: k in st.data ==> Linked(st.links, k))
  }

  lemma EmptyStoreCoherent()
    ensures Coherent(EMPTY_STORE)
  {
  }

  // ---------------------------------------------------------------------------------------
  // gorm's lookup by example: Where(&DataType{...}).First(...)
  // ---------------------------------------------------------------------------------------

  /** The condition of a query by example: the fields of the probe that hold their zero
      value are not part of the condition. */
  predicate Selects(probe: DataType, t: DataType) {
    && (probe.id == 0 || t.id == probe.id)
    && (probe.name == "" || t.name == probe.name)
    && (!probe.forecasting || t.forecasting)
    && (probe.networkProtocol == 0 || t.networkProtocol == probe.networkProtocol)
    && (probe.transportProtocol == 0 || t.transportProtocol == probe.transportProtocol)
    && (probe.port == 0 || t.port == probe.port)
  }

  function IdProbe(id: nat): DataType {
    DataType(id, "", false, 0, 0, 0)
  }

  function NameProbe(name: string): DataType {
    DataType(0, name, false, 0, 0, 0)
  }

  function Candidates(types: map<nat, DataType>, probe: DataType): set<nat> {
    set k | k in types && Selects(probe, types[k])
  }

  /** `m` is the least element of `s`. */
  ghost predicate IsLeast(m: nat, s: set<nat>) {
    m in s && forall k :: k in s ==> m <= k
  }

  lemma {:induction false} MinExists(s: set<nat>)
    requires s != {}
    ensures exists m :: IsLeast(m, s)
    decreases |s|
  {
    var x :| x in s;
    if s == {x} {
      assert IsLeast(x, s);
    } else {
      var rest := s - {x};
      assert rest != {} by {
        var y :| y in s && y != x;
        assert y in rest;
      }
      MinExists(rest);
      var m :| IsLeast(m, rest);
      var least := if x < m then x else m;
      forall k | k in s
        ensures least <= k
      {
        if k != x {
          assert k in rest;
        }
      }
      assert IsLeast(least, s);
    }
  }

  /** First: the row with the smallest primary key among those the probe selects. */
  ghost function First(types: map<nat, DataType>, probe: DataType): (r: Option<nat>)
    ensures r.None? <==> Candidates(types, probe) == {}
    ensures r.Some? ==> r.value in Candidates(types, probe)
    ensures r.Some? ==> forall k :: k in Candidates(types, probe) ==> r.value <= k
  {
    var c := Candidates(types, probe);
    if c == {} then None
    else
      MinExists(c);
      var m :| IsLeast(m, c);
      Some(m)
  }

  /** A lookup by a nonzero id finds exactly the row with that key. */
  lemma FirstByNonzeroId(st: Store, id: nat)
    requires Coherent(st) && id != 0
    ensures First(st.types, IdProbe(id)) == (if id in st.types then Some(id) else None)
  {
    var c := Candidates(st.types, IdProbe(id));
    forall k ensures k in c <==> k in st.types && k == id {
      if k in st.types {
        assert st.types[k].id == k;
      }
    }
    if id in st.types {
      assert id in c;
    } else {
      assert c == {};
    }
  }

  /** A lookup by the empty name selects every row: it finds the row with the smallest key. */
  lemma FirstByEmptyName(st: Store)
    ensures First(st.types, NameProbe("")) == First(st.types, IdProbe(0))
  {
    assert Candidates(st.types, NameProbe("")) == st.types.Keys;
    assert Candidates(st.types, IdProbe(0)) == st.types.Keys;
  }

  /** In a coherent store a nonempty name selects at most the one type of that name. */
  lemma FirstByName(st: Store, name: string, k: nat)
    requires Coherent(st) && name != "" && k in st.types && st.types[k].name == name
    ensures First(st.types, NameProbe(name)) == Some(k)
  {
    var c := Candidates(st.types, NameProbe(name));
    assert k in c;
    assert forall j :: j in c ==> j == k;
  }

  // ---------------------------------------------------------------------------------------
  // Writing captured traffic
  // ---------------------------------------------------------------------------------------

  function NewEntry(st: Store, raw: RawData): Data {
    Data(st.nextDataId, raw.time, raw.bytes, raw.direction)
  }

  /** Stores one aggregate: nothing when no data type describes it, otherwise a new data
      entry associated with every matching data type. */
  function WriteEntry(st: Store, raw: RawData): Store {
    var matching := MatchingTypes(st.types, raw);
    if matching == {} then st
    else
      st.(data := st.data[st.nextDataId := NewEntry(st, raw)],
          links := st.links + (set t | t in matching :: Link(st.nextDataId, t)),
          nextDataId := st.nextDataId + 1)
  }

  /** Stores a list of aggregates in order. */
  function WriteEntries(st: Store, raws: seq<RawData>): Store
    decreases |raws|
  {
    if raws == [] then st else WriteEntry(WriteEntries(st, raws[..|raws| - 1]), raws[|raws| - 1])
  }

  /** An aggregate is stored exactly when some data type matches it; it then gets a fresh id,
      carries the aggregate's time, size and direction, and is associated with exactly the
      matching types. Nothing stored before changes. */
  lemma WriteEntryStores(st: Store, raw: RawData)
    requires Coherent(st)
    ensures MatchingTypes(st.types, raw) == {} ==> WriteEntry(st, raw) == st
    ensures MatchingTypes(st.types, raw) != {} ==>
              var after := WriteEntry(st, raw);
              && st.nextDataId !in st.data
              && after.data == st.data[st.nextDataId := Data(st.nextDataId, raw.time, raw.bytes, raw.direction)]
              && TypesOf(after.links, st.nextDataId) == MatchingTypes(st.types, raw)
              && st.links <= after.links
              && after.types == st.types
  {
    var matching := MatchingTypes(st.types, raw);
    if matching != {} {
      var after := WriteEntry(st, raw);
      var added := set t | t in matching :: Link(st.nextDataId, t);
      assert after.links == st.links + added;
      assert forall l :: l in st.links ==> l.dataId != st.nextDataId;
      forall t ensures t in TypesOf(after.links, st.nextDataId) <==> t in matching {
        if t in matching {
          assert Link(st.nextDataId, t) in after.links;
        }
        if t in TypesOf(after.links, st.nextDataId) {
          var l :| l in after.links && l.dataId == st.nextDataId && l.typeId == t;
          assert l in added;
        }
      }
    }
  }

  lemma WriteEntryCoherent(st: Store, raw: RawData)
    requires Coherent(st)
    ensures Coherent(WriteEntry(st, raw))
  {
    var matching := MatchingTypes(st.types, raw);
    if matching != {} {
      var after := WriteEntry(st, raw);
      var t :| t in matching;
      assert Link(st.nextDataId, t) in after.links;
      forall k | k in after.data
        ensures Linked(after.links, k)
      {
        if k != st.nextDataId {
          assert Linked(st.links, k);
          var l :| l in st.links && l.dataId == k;
          assert l in after.links;
        }
      }
    }
  }

  lemma {:induction false} WriteEntriesCoherent(st: Store, raws: seq<RawData>)
    requires Coherent(st)
    ensures Coherent(WriteEntries(st, raws))
    decreases |raws|
  {
    if raws != [] {
      WriteEntriesCoherent(st, raws[..|raws| - 1]);
      WriteEntryCoherent(WriteEntries(st, raws[..|raws| - 1]), raws[|raws| - 1]);
    }
  }

  // ---------------------------------------------------------------------------------------
  // Writing, modifying and removing data types
  // ---------------------------------------------------------------------------------------

  function Max(a: nat, b: nat): nat {
    if a < b then b else a
  }

  /** Some other row (a key different from the probe's own id) with which `dt` would break a
      unique constraint. */
  predicate Clashes(types: map<nat, DataType>, dt: DataType) {
    exists k :: k in types && k != dt.id && !Distinct(types[k], dt)
  }

  /** Inserting a data type: refused with the validator's message, refused when a unique
      constraint (primary key, name, capture triple) would break, and otherwise stored under
      its own nonzero id or under the next autoincrement value. */
  function WriteType(st: Store, dt: DataType, now: string): (Store, Result<DataType, StoreError>) {
    var check := CheckDataType(dt, now);
    if check.Some? then (st, Failure(Rejected(check.value)))
    else
      InsertType(st, dt.(id := if dt.id != 0 then dt.id else st.nextTypeId))
  }

  /** The database insert of a validated row: refused when a unique constraint would break. */
  function InsertType(st: Store, stored: DataType): (Store, Result<DataType, StoreError>) {
    if stored.id in st.types || Clashes(st.types, stored) then (st, Failure(Conflict))
    else (st.(types := st.types[stored.id := stored], nextTypeId := Max(st.nextTypeId, stored.id + 1)),
          Success(stored))
  }

  /** Adding a valid row that breaks no unique constraint keeps the store coherent. */
  lemma InsertTypeCoherent(st: Store, stored: DataType)
    requires Coherent(st) && FieldsValid(stored) && stored.id != 0 && stored.id !in st.types
    requires forall k :: k in st.types ==> Distinct(st.types[k], stored)
    ensures Coherent(st.(types := st.types[stored.id := stored], nextTypeId := Max(st.nextTypeId, stored.id + 1)))
  {
    var after := st.(types := st.types[stored.id := stored], nextTypeId := Max(st.nextTypeId, stored.id + 1));
    forall a, b | a in after.types && b in after.types && a != b
      ensures Distinct(after.types[a], after.types[b])
    {
      if a == stored.id {
        assert Distinct(st.types[b], stored);
      } else if b == stored.id {
        assert Distinct(st.types[a], stored);
      }
    }
  }

  /** The insert succeeds exactly for valid fields, a free id and no unique-constraint clash;
      a refusal leaves the store as it was; a success adds exactly the one row. */
  lemma WriteTypeOutcome(st: Store, dt: DataType, now: string)
    requires Coherent(st)
    ensures var (after, r) := WriteType(st, dt, now);
            && (r.Success? <==>
                  FieldsValid(dt) && (dt.id == 0 || dt.id !in st.types) &&
                  forall k :: k in st.types ==> Distinct(st.types[k], dt))
            && (r.Failure? ==> after == st)
            && (r.Failure? && !FieldsValid(dt) ==> r.error.Rejected?)
            && (r.Success? ==>
                  && r.value == dt.(id := r.value.id) && r.value.id != 0 && r.value.id !in st.types
                  && (dt.id != 0 ==> r.value.id == dt.id)
                  && after.types == st.types[r.value.id := r.value]
                  && after.data == st.data && after.links == st.links)
            && Coherent(after)
  {
    var check := CheckDataType(dt, now);
    if check.None? {
      var stored := dt.(id := if dt.id != 0 then dt.id else st.nextTypeId);
      assert forall k :: k in st.types ==> (Distinct(st.types[k], stored) <==> Distinct(st.types[k], dt));
      if stored.id !in st.types {
        assert Clashes(st.types, stored) <==> exists k :: k in st.types && !Distinct(st.types[k], dt);
        if !Clashes(st.types, stored) {
          InsertTypeCoherent(st, stored);
        }
      }
    }
  }

  const TYPE_01 := DataType(1, "Type01", false, 10, 20, 30)
  const TYPE_02 := DataType(2, "Type02", false, 44, 42, 30)
  const TYPE_03 := DataType(3, "Type03", false, 0, 0, 0)
  const AFTER_01 := Store(map[1 := TYPE_01], map[], {}, 2, 1)
  const AFTER_02 := Store(map[1 := TYPE_01, 2 := TYPE_02], map[], {}, 3, 1)
  const AFTER_03 := Store(map[1 := TYPE_01, 2 := TYPE_02, 3 := TYPE_03], map[], {}, 4, 1)

  /** An insert without an id, of valid fields clashing with no row, takes the next
      autoincrement value. */
  lemma WriteTypeFresh(st: Store, dt: DataType, now: string, after: Store)
    requires FieldsValid(dt) && dt.id == 0 && st.nextTypeId != 0 && st.nextTypeId !in st.types
    requires forall k :: k in st.types ==> Distinct(st.types[k], dt)
    requires after == st.(types := st.types[st.nextTypeId := dt.(id := st.nextTypeId)],
                          nextTypeId := st.nextTypeId + 1)
    ensures WriteType(st, dt, now) == (after, Success(dt.(id := st.nextTypeId)))
  {
    var stored := dt.(id := st.nextTypeId);
    assert forall k :: k in st.types ==> Distinct(st.types[k], stored);
    assert !Clashes(st.types, stored);
  }

  /** The insertion scenario, first part: three distinct types are stored under ids 1, 2, 3. */
  lemma WriteTypeScenarioAccepted()
    ensures WriteType(EMPTY_STORE, TYPE_01.(id := 0), "t") == (AFTER_01, Success(TYPE_01))
    ensures WriteType(AFTER_01, TYPE_02.(id := 0), "t") == (AFTER_02, Success(TYPE_02))
    ensures WriteType(AFTER_02, TYPE_03.(id := 0), "t") == (AFTER_03, Success(TYPE_03))
  {
    assert EMPTY_STORE.types[1 := TYPE_01] == AFTER_01.types;
    WriteTypeFresh(EMPTY_STORE, TYPE_01.(id := 0), "t", AFTER_01);
    assert AFTER_01.types[2 := TYPE_02] == AFTER_02.types;
    assert AFTER_01.types.Keys == {1};
    WriteTypeFresh(AFTER_01, TYPE_02.(id := 0), "t", AFTER_02);
    assert AFTER_02.types[3 := TYPE_03] == AFTER_03.types;
    assert AFTER_02.types.Keys == {1, 2};
    WriteTypeFresh(AFTER_02, TYPE_03.(id := 0), "t", AFTER_03);
  }

  /** ... second part: a type without a name, a second "Type02" and a second capture triple
      (10, 20, 30) are refused, and the three types remain. */
  lemma WriteTypeScenarioRefused()
    ensures WriteType(AFTER_03, DataType(10, "", false, 0, 0, 0), "t").0 == AFTER_03
    ensures WriteType(AFTER_03, DataType(10, "", false, 0, 0, 0), "t").1.Failure?
    ensures WriteType(AFTER_03, DataType(0, "Type02", false, 11, 42, 30), "t") == (AFTER_03, Failure(Conflict))
    ensures WriteType(AFTER_03, DataType(0, "Type04", true, 10, 20, 30), "t") == (AFTER_03, Failure(Conflict))
    ensures |AFTER_03.types| == 3
  {
    assert !Distinct(AFTER_03.types[2], DataType(4, "Type02", false, 11, 42, 30));
    assert !Distinct(AFTER_03.types[1], DataType(4, "Type04", true, 10, 20, 30));
    assert AFTER_03.types.Keys == {1, 2, 3};
  }

  /** Updating the data type with key `id` to carry the fields of `dt` (the key is kept):
      refused with the validator's message, refused for id 0 or an unknown id, refused when
      another row holds the same name or capture triple. */
  function ModifyType(st: Store, id: nat, dt: DataType, now: string): (Store, Option<StoreError>) {
    var check := CheckDataType(dt, now);
    if check.Some? then (st, Some(Rejected(check.value)))
    else if id == 0 || id !in st.types then (st, Some(Missing))
    else
      var stored := dt.(id := id);
      if Clashes(st.types, stored) then (st, Some(Conflict))
      else (st.(types := st.types[id := stored]), None)
  }

  lemma ModifyTypeOutcome(st: Store, id: nat, dt: DataType, now: string)
    requires Coherent(st)
    ensures var (after, err) := ModifyType(st, id, dt, now);
            && (err.None? <==>
                  FieldsValid(dt) && id != 0 && id in st.types &&
                  forall k :: k in st.types && k != id ==> Distinct(st.types[k], dt))
            && (err.Some? ==> after == st)
            && (err.None? ==>
                  after.types == st.types[id := dt.(id := id)] && after.data == st.data &&
                  after.links == st.links && after.nextTypeId == st.nextTypeId)
            && Coherent(after)
  {
    var (after, err) := ModifyType(st, id, dt, now);
    if err.None? {
      ReplaceTypeCoherent(st, dt.(id := id));
    }
  }

  /** Replacing a row by a valid one that breaks no unique constraint keeps the store coherent. */
  lemma ReplaceTypeCoherent(st: Store, stored: DataType)
    requires Coherent(st) && FieldsValid(stored) && stored.id in st.types
    requires !Clashes(st.types, stored)
    ensures Coherent(st.(types := st.types[stored.id := stored]))
  {
    var after := st.(types := st.types[stored.id := stored]);
    forall a, b | a in after.types && b in after.types && a != b
      ensures Distinct(after.types[a], after.types[b])
    {
      if a == stored.id {
        assert Distinct(st.types[b], stored);
      } else if b == stored.id {
        assert Distinct(st.types[a], stored);
      }
    }
  }

  /** Updating a data type keeps a coherent store coherent. */
  lemma ModifyTypeCoherent(st: Store, id: nat, dt: DataType, now: string)
    requires Coherent(st)
    ensures Coherent(ModifyType(st, id, dt, now).0)
  {
    ModifyTypeOutcome(st, id, dt, now);
  }

  /** The update as the code performs it: the old row is looked up by example with the id as
      the only field, so id 0 places no condition and selects the row with the smallest key. */
  ghost function ModifyTypeAsWritten(st: Store, id: nat, dt: DataType, now: string): (Store, Option<StoreError>) {
    var check := CheckDataType(dt, now);
    if check.Some? then (st, Some(Rejected(check.value)))
    else
      var found := First(st.types, IdProbe(id));
      if found.None? then (st, Some(Missing))
      else
        var stored := dt.(id := found.value);
        if Clashes(st.types, stored) then (st, Some(Conflict))
        else (st.(types := st.types[found.value := stored]), None)
  }

  /** The two agree on every nonzero id ... */
  lemma ModifyAsWrittenAgrees(st: Store, id: nat, dt: DataType, now: string)
    requires Coherent(st) && id != 0
    ensures ModifyTypeAsWritten(st, id, dt, now) == ModifyType(st, id, dt, now)
  {
    FirstByNonzeroId(st, id);
  }

  /** ... but with id 0 the code overwrites an existing data type, which the corrected update
      refuses. */
  lemma ModifyIdZeroOverwrites()
    ensures var st := Store(map[5 := DataType(5, "A", false, 1, 1, 1)], map[], {}, 6, 1);
            var dt := DataType(0, "B", false, 2, 2, 2);
            && ModifyTypeAsWritten(st, 0, dt, "t") == (st.(types := map[5 := DataType(5, "B", false, 2, 2, 2)]), None)
            && ModifyType(st, 0, dt, "t") == (st, Some(Missing))
  {
    var st := Store(map[5 := DataType(5, "A", false, 1, 1, 1)], map[], {}, 6, 1);
    var dt := DataType(0, "B", false, 2, 2, 2);
    assert FieldsValid(dt);
    assert CheckDataType(dt, "t") == None;
    assert Candidates(st.types, IdProbe(0)) == {5};
    assert First(st.types, IdProbe(0)) == Some(5);
    assert !Clashes(st.types, dt.(id := 5));
    assert st.types[5 := DataType(5, "B", false, 2, 2, 2)] == map[5 := DataType(5, "B", false, 2, 2, 2)];
  }

  function TypeLinks(links: set<Link>, id: nat): set<Link> {
    set l | l in links && l.typeId == id
  }

  function RelatedData(links: set<Link>, id: nat): set<nat> {
    set l | l in links && l.typeId == id :: l.dataId
  }

  /** The entries of `related` left without any association. */
  function Orphans(links: set<Link>, related: set<nat>): set<nat> {
    set d | d in related && !Linked(links, d)
  }

  /** Settling one more pending entry adds it to the orphans exactly when it has no association. */
  lemma OrphansStep(links: set<Link>, related: set<nat>, pending: set<nat>, d: nat)
    requires d in pending && pending <= related
    ensures Orphans(links, related - (pending - {d})) ==
            Orphans(links, related - pending) + (if Linked(links, d) then {} else {d})
  {
  }

  /** Removing a data type: refused for id 0 or an unknown id; otherwise its associations go,
      the data entries left without any association go, and the type itself goes. */
  function RemoveType(st: Store, id: nat): (Store, Result<DataType, StoreError>) {
    if id == 0 || id !in st.types then (st, Failure(Missing))
    else
      var remaining := st.links - TypeLinks(st.links, id);
      (st.(types := st.types - {id}, links := remaining,
           data := st.data - Orphans(remaining, RelatedData(st.links, id))),
       Success(st.types[id]))
  }

  lemma RemoveTypeOutcome(st: Store, id: nat)
    requires Coherent(st)
    ensures var (after, r) := RemoveType(st, id);
            && (r.Success? <==> id != 0 && id in st.types)
            && (r.Failure? ==> after == st)
            && (r.Success? ==>
                  && r.value == st.types[id]
                  && after.types == st.types - {id}
                  && (forall l :: l in after.links <==> l in st.links && l.typeId != id)
                  && (forall k :: k in st.data ==>
                        (k in after.data <==> exists l :: l in st.links && l.dataId == k && l.typeId != id))
                  && (forall k :: k in after.data ==> k in st.data && after.data[k] == st.data[k]))
            && Coherent(after)
  {
    var (after, r) := RemoveType(st, id);
    if r.Success? {
      var remaining := st.links - TypeLinks(st.links, id);
      var related := RelatedData(st.links, id);
      forall k | k in st.data
        ensures k in after.data <==> exists l :: l in st.links && l.dataId == k && l.typeId != id
      {
        if k in after.data {
          if k in related {
            assert Linked(remaining, k);
            var l :| l in remaining && l.dataId == k;
            assert l in st.links && l.typeId != id;
          } else {
            assert Linked(st.links, k);
            var l :| l in st.links && l.dataId == k;
            assert l.typeId == id ==> k in related;
          }
        } else {
          assert k in Orphans(remaining, related);
          assert forall l :: l in st.links && l.dataId == k && l.typeId != id ==> l in remaining;
        }
      }
      forall k | k in after.data
        ensures Linked(after.links, k)
      {
        var l :| l in st.links && l.dataId == k && l.typeId != id;
        assert l in after.links;
      }
      forall l | l in after.links
        ensures l.dataId in after.data && l.typeId in after.types
      {
        assert l.dataId !in Orphans(remaining, related);
      }
    }
  }

  /** Removing a data type keeps a coherent store coherent. */
  lemma RemoveTypeCoherent(st: Store, id: nat)
    requires Coherent(st)
    ensures Coherent(RemoveType(st, id).0)
  {
    RemoveTypeOutcome(st, id);
  }

  // ---------------------------------------------------------------------------------------
  // Ageing out and listing data
  // ---------------------------------------------------------------------------------------

  function OldEntries(data: map<nat, Data>, limit: int): set<nat> {
    set k | k in data && data[k].time <= limit
  }

  /** Removes the data entries as old as `limit` or older, with their associations. */
  function RemoveOld(st: Store, limit: int): Store {
    var gone := OldEntries(st.data, limit);
    st.(data := st.data - gone, links := set l | l in st.links && l.dataId !in gone)
  }

  lemma RemoveOldOutcome(st: Store, limit: int)
    requires Coherent(st)
    ensures var after := RemoveOld(st, limit);
            && (forall k :: k in after.data <==> k in st.data && st.data[k].time > limit)
            && (forall k :: k in after.data ==> after.data[k] == st.data[k])
            && (forall l :: l in after.links <==> l in st.links && l.dataId in after.data)
            && after.types == st.types
            && Coherent(after)
  {
    var after := RemoveOld(st, limit);
    forall k | k in after.data
      ensures Linked(after.links, k)
    {
      assert Linked(st.links, k);
      var l :| l in st.links && l.dataId == k;
      assert l in after.links;
    }
  }

  /** The data entries of type `typeId` newer than `limit` in the given direction. */
  function EntriesOf(st: Store, typeId: nat, limit: int, direction: nat): set<Data> {
    set k | k in st.data && Link(k, typeId) in st.links && st.data[k].time > limit &&
            st.data[k].direction == direction :: st.data[k]
  }

  predicate SortedByTime(s: seq<Data>) {
    forall i, j :: 0 <= i < j < |s| ==> s[i].time <= s[j].time
  }

  /** `s` lists the entries of `entries`, each exactly once, in ascending time. */
  ghost predicate ListsByTime(s: seq<Data>, entries: set<Data>) {
    SortedByTime(s) && multiset(s) == multiset(entries)
  }

  /** Inserts an entry after all entries not later than it. */
  function InsertByTime(x: Data, s: seq<Data>): seq<Data> {
    if s == [] then [x]
    else if x.time < s[0].time then [x] + s
    else [s[0]] + InsertByTime(x, s[1..])
  }

  lemma {:induction false} InsertByTimeElements(x: Data, s: seq<Data>)
    ensures multiset(InsertByTime(x, s)) == multiset(s) + multiset{x}
    decreases |s|
  {
    if s != [] && x.time >= s[0].time {
      InsertByTimeElements(x, s[1..]);
      assert s == [s[0]] + s[1..];
    }
  }

  lemma {:induction false} InsertByTimeSorted(x: Data, s: seq<Data>)
    requires SortedByTime(s)
    ensures SortedByTime(InsertByTime(x, s))
    decreases |s|
  {
    if s == [] {
    } else if x.time < s[0].time {
      var r := [x] + s;
      assert forall i :: 0 < i < |r| ==> r[i] == s[i - 1];
    } else {
      InsertByTimeSorted(x, s[1..]);
      var t := InsertByTime(x, s[1..]);
      InsertByTimeElements(x, s[1..]);
      forall j | 0 <= j < |t|
        ensures s[0].time <= t[j].time
      {
        assert t[j] in multiset(t);
        assert t[j] == x || t[j] in multiset(s[1..]);
        if t[j] != x {
          var k :| 0 <= k < |s[1..]| && s[1..][k] == t[j];
          assert s[k + 1] == t[j];
        }
      }
      var r := [s[0]] + t;
      assert forall j :: 0 < j < |r| ==> r[j] == t[j - 1];
    }
  }

  lemma InsertByTimeLists(x: Data, s: seq<Data>, entries: set<Data>)
    requires ListsByTime(s, entries) && x !in entries
    ensures ListsByTime(InsertByTime(x, s), entries + {x})
  {
    InsertByTimeElements(x, s);
    InsertByTimeSorted(x, s);
    assert multiset(entries + {x}) == multiset(entries) + multiset{x};
  }

  // ---------------------------------------------------------------------------------------
  // The store object
  // ---------------------------------------------------------------------------------------

  class StatisticalData {
    var dataTypes: map<nat, DataType>
    var data: map<nat, Data>
    var links: set<Link>
    var nextTypeId: nat
    var nextDataId: nat

    function State(): Store
      reads this
    {
      Store(dataTypes, data, links, nextTypeId, nextDataId)
    }

    /** Empty tables; both counters start at 1. */
    constructor ()
      ensures State() == EMPTY_STORE
      ensures Coherent(State())
    {
      dataTypes := map[];
      data := map[];
      links := {};
      nextTypeId := 1;
      nextDataId := 1;
      EmptyStoreCoherent();
    }

    /** Stores each aggregate that some data type describes, one after another. */
    method WriteNewDataEntries(rawData: seq<RawData>)
      modifies this
      ensures State() == WriteEntries(old(State()), rawData)
      ensures Coherent(old(State())) ==> Coherent(State())
    {
      var i := 0;
      while i < |rawData|
        invariant 0 <= i <= |rawData|
        invariant State() == WriteEntries(old(State()), rawData[..i])
      {
        assert rawData[..i + 1][..i] == rawData[..i];
        var raw := rawData[i];
        var matching := MatchingTypes(dataTypes, raw);
        if matching != {} {
          data := data[nextDataId := Data(nextDataId, raw.time, raw.bytes, raw.direction)];
          links := links + (set t | t in matching :: Link(nextDataId, t));
          nextDataId := nextDataId + 1;
        }
        i := i + 1;
      }
      assert rawData[..i] == rawData;
      if Coherent(old(State())) {
        WriteEntriesCoherent(old(State()), rawData);
      }
    }

    /** Inserts a data type and returns it with its id. */
    method WriteNewDataType(dataType: DataType, now: string) returns (r: Result<DataType, StoreError>)
      modifies this
      ensures (State(), r) == WriteType(old(State()), dataType, now)
      ensures Coherent(old(State())) ==> Coherent(State())
    {
      var check := CheckDataType(dataType, now);
      if check.Some? {
        return Failure(Rejected(check.value));
      }
      var stored := dataType.(id := if dataType.id != 0 then dataType.id else nextTypeId);
      r := InsertDataType(stored);
    }

    /** The insert itself, of a row that passed validation. */
    method InsertDataType(stored: DataType) returns (r: Result<DataType, StoreError>)
      requires FieldsValid(stored) && (Coherent(State()) ==> stored.id != 0)
      modifies this
      ensures (State(), r) == InsertType(old(State()), stored)
      ensures Coherent(old(State())) ==> Coherent(State())
    {
      if stored.id in dataTypes || Clashes(dataTypes, stored) {
        return Failure(Conflict);
      }
      if Coherent(State()) {
        InsertTypeCoherent(State(), stored);
      }
      dataTypes := dataTypes[stored.id := stored];
      nextTypeId := Max(nextTypeId, stored.id + 1);
      r := Success(stored);
    }

    /** The data type with a nonzero id; refused for id 0 and for an unknown id. */
    function GetDataType(id: nat): (r: Result<DataType, StoreError>)
      reads this
      ensures r.Success? <==> id != 0 && id in dataTypes
      ensures r.Success? ==> r.value == dataTypes[id]
      ensures r.Failure? ==> r.error == Missing
    {
      if id != 0 && id in dataTypes then
        Success(dataTypes[id])
      else Failure(Missing)
    }

    /** Updates a data type in place, keeping its id. */
    method ModifyDataType(id: nat, dataType: DataType, now: string) returns (err: Option<StoreError>)
      modifies this
      ensures (State(), err) == ModifyType(old(State()), id, dataType, now)
      ensures Coherent(old(State())) ==> Coherent(State())
    {
      var check := CheckDataType(dataType, now);
      if check.Some? {
        return Some(Rejected(check.value));
      }
      if id == 0 || id !in dataTypes {
        return Some(Missing);
      }
      var stored := dataType.(id := id);
      if Clashes(dataTypes, stored) {
        return Some(Conflict);
      }
      if Coherent(State()) {
        ModifyTypeCoherent(State(), id, dataType, now);
      }
      dataTypes := dataTypes[id := stored];
      err := None;
    }

    /** Removes a data type, its associations and the data entries it leaves orphaned. */
    method RemoveDataType(id: nat) returns (r: Result<DataType, StoreError>)
      modifies this
      ensures (State(), r) == RemoveType(old(State()), id)
      ensures Coherent(old(State())) ==> Coherent(State())
    {
      if id == 0 || id !in dataTypes {
        return Failure(Missing);
      }
      if Coherent(State()) {
        RemoveTypeCoherent(State(), id);
      }
      var removed := dataTypes[id];
      var related := RelatedData(links, id);
      links := links - TypeLinks(links, id);
      RemoveOrphans(related);
      dataTypes := dataTypes - {id};
      r := Success(removed);
    }

    /** Deletes, one by one, the entries of `related` that no association refers to any more. */
    method RemoveOrphans(related: set<nat>)
      modifies this
      ensures data == old(data) - Orphans(links, related)
      ensures dataTypes == old(dataTypes) && links == old(links)
      ensures nextTypeId == old(nextTypeId) && nextDataId == old(nextDataId)
    {
      var pending := related;
      while pending != {}
        invariant pending <= related
        invariant dataTypes == old(dataTypes) && links == old(links)
        invariant nextTypeId == old(nextTypeId) && nextDataId == old(nextDataId)
        invariant data == old(data) - Orphans(links, related - pending)
        decreases |pending|
      {
        var d :| d in pending;
        OrphansStep(links, related, pending, d);
        if !Linked(links, d) {
          data := data - {d};
        }
        pending := pending - {d};
      }
      assert related - pending == related;
    }

    /** Removes the data entries as old as `limit` or older, together with their associations. */
    method RemoveOldDataEntries(limit: int)
      modifies this
      ensures State() == RemoveOld(old(State()), limit)
      ensures Coherent(old(State())) ==> Coherent(State())
    {
      var gone := OldEntries(data, limit);
      var pending := gone;
      while pending != {}
        invariant pending <= gone
        invariant dataTypes == old(dataTypes) && nextTypeId == old(nextTypeId) && nextDataId == old(nextDataId)
        invariant data == old(data) - (gone - pending)
        invariant links == set l | l in old(links) && l.dataId !in gone - pending
        decreases |pending|
      {
        var k :| k in pending;
        links := links - (set l | l in links && l.dataId == k);
        data := data - {k};
        pending := pending - {k};
      }
      assert gone - pending == gone;
      if Coherent(old(State())) {
        RemoveOldOutcome(old(State()), limit);
      }
    }

    /** The first type the probe selects, found by scanning the keys. */
    method FirstMatching(probe: DataType) returns (r: Option<nat>)
      ensures r == First(dataTypes, probe)
    {
      var pending := dataTypes.Keys;
      r := None;
      while pending != {}
        invariant pending <= dataTypes.Keys
        invariant r.None? ==> forall k :: k in dataTypes && k !in pending ==> !Selects(probe, dataTypes[k])
        invariant r.Some? ==> r.value in Candidates(dataTypes, probe)
        invariant r.Some? ==> forall k :: k in Candidates(dataTypes, probe) && k !in pending ==> r.value <= k
        decreases |pending|
      {
        var k :| k in pending;
        if Selects(probe, dataTypes[k]) && (r.None? || k < r.value) {
          r := Some(k);
        }
        pending := pending - {k};
      }
      var expected := First(dataTypes, probe);
      if r.None? {
        assert Candidates(dataTypes, probe) == {};
      } else {
        assert expected.Some?;
        assert r.value <= expected.value && expected.value <= r.value;
      }
    }

    /** The data of the type found by name (by example, so the empty name selects the type
        with the smallest id), newer than `limit`, in one direction, in ascending time;
        refused when no type is found. */
    method ListLastDataEntries(name: string, limit: int, direction: nat) returns (r: Result<seq<Data>, StoreError>)
      ensures r.Failure? <==> First(dataTypes, NameProbe(name)).None?
      ensures r.Failure? ==> r.error == Missing
      ensures r.Success? ==>
                ListsByTime(r.value, EntriesOf(State(), First(dataTypes, NameProbe(name)).value, limit, direction))
    {
      var found := FirstMatching(NameProbe(name));
      if found.None? {
        return Failure(Missing);
      }
      var listed := SortByTime(EntriesOf(State(), found.value, limit, direction));
      r := Success(listed);
    }
  }

  /** Orders a set of entries by time, inserting them one at a time. */
  method SortByTime(entries: set<Data>) returns (listed: seq<Data>)
    ensures ListsByTime(listed, entries)
  {
    var pending := entries;
    ghost var done: set<Data> := {};
    listed := [];
    while pending != {}
      invariant pending !! done && pending + done == entries
      invariant ListsByTime(listed, done)
      decreases |pending|
    {
      var x :| x in pending;
      InsertByTimeLists(x, listed, done);
      listed := InsertByTime(x, listed);
      pending, done := pending - {x}, done + {x};
    }
  }
}
