/** Aggregation of one bucket of captured TZSP frames: the frame carried inside each TZSP
    datagram is classified by its protocols, ports and direction, and the lengths of the
    frames of each class are summed into one aggregate per class, which is offered to the
    statistical store. Packet decoding is a parameter: a frame is given by the layers the
    decoder found in it. */
module FramesParsers {
  import opened Wrappers
  import StatisticalStore

  type RawData = StatisticalStore.RawData

  /** UDP port the TZSP datagrams are sent to. */
  const PORT_TZSP: nat := 37008

  // ---------------------------------------------------------------------------------------
  // Decoded frames
  // ---------------------------------------------------------------------------------------

  /** The UDP layer of a captured datagram, with the bytes it carries. */
  datatype UdpLayer = UdpLayer(srcPort: nat, dstPort: nat, payload: seq<bv8>)

  /** A captured frame: only its UDP layer is looked at. */
  datatype Frame = Frame(udp: Option<UdpLayer>)

  datatype EthernetLayer = EthernetLayer(ethernetType: nat, srcMac: seq<bv8>)

  datatype Ports = Ports(src: nat, dst: nat)

  /** The layers the decoder finds in an encapsulated frame; `ipv4` holds the Protocol field
      and `ipv6` the NextHeader field. */
  datatype Layers = Layers(ethernet: Option<EthernetLayer>, ipv4: Option<nat>, ipv6: Option<nat>,
                           tcp: Option<Ports>, udp: Option<Ports>)

  /** The class an encapsulated frame is counted in. */
  datatype RawDataType = RawDataType(networkProtocol: nat, transportProtocol: nat, srcPort: nat,
                                     dstPort: nat, direction: nat)

  /** A datagram sent to the TZSP port. */
  predicate IsTzsp(f: Frame) {
    f.udp.Some? && f.udp.value.dstPort == PORT_TZSP
  }

  // ---------------------------------------------------------------------------------------
  // The TZSP header
  // ---------------------------------------------------------------------------------------

  /** The frame a TZSP payload carries. The four header bytes are followed by a tag: tags 0
      and 1 are one byte long, any other tag has a length byte and that many bytes of data.
      `None` where indexing or slicing the payload would fail: a payload of at most four
      bytes, of five bytes with a long tag, or a tag longer than the payload. */
  function Encapsulated(payload: seq<bv8>): Option<seq<bv8>> {
    if |payload| <= 4 then None
    else if payload[4] == 0 || payload[4] == 1 then Some(payload[5..])
    else if |payload| <= 5 then None
    else
      var firstDataIndex := payload[5] as nat + 6;
      if firstDataIndex > |payload| then None else Some(payload[firstDataIndex..])
  }

  /** A TZSP payload: a four-byte header, a tag (with its length byte and data unless it is
      0 or 1) and the frame. */
  function Encapsulate(header: seq<bv8>, tag: bv8, length: bv8, tagData: seq<bv8>, frame: seq<bv8>): seq<bv8>
    requires |header| == 4 && length as nat == |tagData|
  {
    if tag == 0 || tag == 1 then header + [tag] + frame
    else header + [tag, length] + tagData + frame
  }

  /** The offset rule recovers the frame put behind any header and tag. */
  lemma EncapsulateRoundTrip(header: seq<bv8>, tag: bv8, length: bv8, tagData: seq<bv8>, frame: seq<bv8>)
    requires |header| == 4 && length as nat == |tagData|
    ensures Encapsulated(Encapsulate(header, tag, length, tagData, frame)) == Some(frame)
  {
    if tag == 0 || tag == 1 {
      var p := header + [tag] + frame;
      assert p[4] == tag && p[5..] == frame;
    } else {
      var p := header + [tag, length] + tagData + frame;
      assert |p| == |tagData| + 6 + |frame|;
      assert p[4] == tag && p[5] == length;
      assert p[|tagData| + 6..] == frame;
    }
  }

  lemma LongTagSplit(payload: seq<bv8>, k: nat)
    requires |payload| >= k + 6
    ensures payload == payload[..4] + [payload[4], payload[5]] + payload[6..k + 6] + payload[k + 6..]
  {
    assert payload == payload[..4] + payload[4..6] + payload[6..k + 6] + payload[k + 6..];
    assert payload[4..6] == [payload[4], payload[5]];
  }

  /** Conversely, whatever the rule extracts is the frame behind the payload's own header and
      tag. */
  lemma EncapsulatedIsSuffix(payload: seq<bv8>)
    requires Encapsulated(payload).Some?
    ensures var frame := Encapsulated(payload).value;
            var short := payload[4] == 0 || payload[4] == 1;
            var length := if short then 0 else payload[5];
            var tagData := if short then [] else payload[6..|payload| - |frame|];
            && length as nat == |tagData|
            && payload == Encapsulate(payload[..4], payload[4], length, tagData, frame)
  {
    if payload[4] == 0 || payload[4] == 1 {
      assert payload == payload[..4] + [payload[4]] + payload[5..];
    } else {
      LongTagSplit(payload, payload[5] as nat);
    }
  }

  // ---------------------------------------------------------------------------------------
  // Classification of an encapsulated frame
  // ---------------------------------------------------------------------------------------

  /** The class of a decoded frame: the EtherType, the IPv6 next header or else the IPv4
      protocol, the UDP ports or else the TCP ports, and direction 1 (TX) exactly when the
      Ethernet source is the router. An absent layer leaves its fields 0. */
  function Classify(l: Layers, routerMac: seq<bv8>): RawDataType {
    RawDataType(
      if l.ethernet.Some? then l.ethernet.value.ethernetType else 0,
      if l.ipv6.Some? then l.ipv6.value else if l.ipv4.Some? then l.ipv4.value else 0,
      if l.udp.Some? then l.udp.value.src else if l.tcp.Some? then l.tcp.value.src else 0,
      if l.udp.Some? then l.udp.value.dst else if l.tcp.Some? then l.tcp.value.dst else 0,
      if l.ethernet.Some? && l.ethernet.value.srcMac == routerMac then 1 else 0)
  }

  /** With a UDP layer present, the TCP layer has no say. */
  lemma UdpOverridesTcp(l: Layers, tcp: Option<Ports>, routerMac: seq<bv8>)
    requires l.udp.Some?
    ensures Classify(l.(tcp := tcp), routerMac) == Classify(l, routerMac)
  {
  }

  /** With an IPv6 layer present, the IPv4 layer has no say. */
  lemma Ipv6OverridesIpv4(l: Layers, ipv4: Option<nat>, routerMac: seq<bv8>)
    requires l.ipv6.Some?
    ensures Classify(l.(ipv4 := ipv4), routerMac) == Classify(l, routerMac)
  {
  }

  /** The direction depends on the Ethernet source only: TX from the router, RX otherwise. */
  lemma DirectionRule(l: Layers, m: Layers, routerMac: seq<bv8>)
    requires l.ethernet == m.ethernet
    ensures Classify(l, routerMac).direction == Classify(m, routerMac).direction
    ensures Classify(l, routerMac).direction <= 1
    ensures Classify(l, routerMac).direction == 1 <==> l.ethernet.Some? && l.ethernet.value.srcMac == routerMac
  {
  }

  /** A frame in which nothing was decoded falls in the all-zero class. */
  lemma NoLayersNoFields(routerMac: seq<bv8>)
    ensures Classify(Layers(None, None, None, None, None), routerMac) == RawDataType(0, 0, 0, 0, 0)
  {
  }

  // ---------------------------------------------------------------------------------------
  // Aggregation
  // ---------------------------------------------------------------------------------------

  /** The aggregate of a class: its size, its protocols and ports, the time of its last
      frame and its direction. */
  function Record(key: RawDataType, bytes: nat, time: int): RawData {
    StatisticalStore.RawData(bytes, key.networkProtocol, key.transportProtocol, key.srcPort,
                             key.dstPort, time, key.direction)
  }

  /** What one frame adds: nothing unless it is sent to the TZSP port; otherwise `None` when
      its header cannot be read, and else the frame's class and length. */
  function Step(repository: map<RawDataType, RawData>, f: Frame, now: int, routerMac: seq<bv8>,
                decode: seq<bv8> -> Layers): Option<map<RawDataType, RawData>>
  {
    if !IsTzsp(f) then Some(repository)
    else match Encapsulated(f.udp.value.payload)
      case None => None
      case Some(originalData) =>
        var key := Classify(decode(originalData), routerMac);
        if key in repository then
          Some(repository[key := repository[key].(bytes := repository[key].bytes + |originalData|, time := now)])
        else
          Some(repository[key := Record(key, |originalData|, now)])
  }

  /** The repository after the frames of a bucket, frame i processed at `clock[i]`; `None`
      when reading some TZSP header fails. */
  function Aggregate(buffer: seq<Frame>, clock: seq<int>, routerMac: seq<bv8>,
                     decode: seq<bv8> -> Layers): Option<map<RawDataType, RawData>>
    requires |clock| == |buffer|
    decreases |buffer|
  {
    if buffer == [] then Some(map[])
    else
      var n := |buffer| - 1;
      match Aggregate(buffer[..n], clock[..n], routerMac, decode)
      case None => None
      case Some(repository) => Step(repository, buffer[n], clock[n], routerMac, decode)
  }

  /** The class and length a frame is counted with, if any. */
  predicate Counts(f: Frame, key: RawDataType, routerMac: seq<bv8>, decode: seq<bv8> -> Layers) {
    IsTzsp(f) && Encapsulated(f.udp.value.payload).Some? &&
    Classify(decode(Encapsulated(f.udp.value.payload).value), routerMac) == key
  }

  /** The total length of the encapsulated frames of a class. */
  function ClassBytes(buffer: seq<Frame>, key: RawDataType, routerMac: seq<bv8>,
                      decode: seq<bv8> -> Layers): nat
    decreases |buffer|
  {
    if buffer == [] then 0
    else
      var n := |buffer| - 1;
      var f := buffer[n];
      ClassBytes(buffer[..n], key, routerMac, decode) +
        (if Counts(f, key, routerMac, decode) then |Encapsulated(f.udp.value.payload).value| else 0)
  }

  /** Whether some frame of the bucket is a TZSP datagram whose header cannot be read. */
  predicate Unreadable(buffer: seq<Frame>) {
    exists i :: 0 <= i < |buffer| && IsTzsp(buffer[i]) && Encapsulated(buffer[i].udp.value.payload).None?
  }

  /** The time of the last frame of a class. */
  function LastTime(buffer: seq<Frame>, clock: seq<int>, key: RawDataType, routerMac: seq<bv8>,
                    decode: seq<bv8> -> Layers): int
    requires |clock| == |buffer|
    decreases |buffer|
  {
    if buffer == [] then 0
    else
      var n := |buffer| - 1;
      if Counts(buffer[n], key, routerMac, decode) then clock[n]
      else LastTime(buffer[..n], clock[..n], key, routerMac, decode)
  }

  /** The class an aggregate was recorded for. */
  function KeyOf(raw: RawData): RawDataType {
    RawDataType(raw.networkProtocol, raw.transportProtocol, raw.srcPort, raw.dstPort, raw.direction)
  }

  /** Every aggregate is stored under its own class. */
  predicate Keyed(repository: map<RawDataType, RawData>) {
    forall key :: key in repository ==> KeyOf(repository[key]) == key
  }

  lemma {:induction false} ClassBytesNone(buffer: seq<Frame>, key: RawDataType, routerMac: seq<bv8>,
                                          decode: seq<bv8> -> Layers)
    requires forall i :: 0 <= i < |buffer| ==> !Counts(buffer[i], key, routerMac, decode)
    ensures ClassBytes(buffer, key, routerMac, decode) == 0
    decreases |buffer|
  {
    if buffer != [] {
      var n := |buffer| - 1;
      assert forall i :: 0 <= i < n ==> buffer[..n][i] == buffer[i];
      ClassBytesNone(buffer[..n], key, routerMac, decode);
    }
  }

  /** The aggregation fails exactly when some TZSP header cannot be read. */
  lemma {:induction false} AggregateFails(buffer: seq<Frame>, clock: seq<int>, routerMac: seq<bv8>,
                                          decode: seq<bv8> -> Layers)
    requires |clock| == |buffer|
    ensures Aggregate(buffer, clock, routerMac, decode).None? <==> Unreadable(buffer)
    decreases |buffer|
  {
    if buffer != [] {
      var n := |buffer| - 1;
      var front := buffer[..n];
      AggregateFails(front, clock[..n], routerMac, decode);
      assert forall i :: 0 <= i < n ==> front[i] == buffer[i];
      var last := IsTzsp(buffer[n]) && Encapsulated(buffer[n].udp.value.payload).None?;
      if Unreadable(buffer) && !last {
        var i :| 0 <= i < |buffer| && IsTzsp(buffer[i]) && Encapsulated(buffer[i].udp.value.payload).None?;
        assert i < n;
        assert Unreadable(front);
      }
      if last {
        assert Unreadable(buffer);
      }
    }
  }

  /** A bucket whose headers can all be read leaves one aggregate per class that some frame is
      counted in, under that class, holding the total length of the class's frames and the
      time of its last frame. */
  lemma {:induction false} AggregateContents(buffer: seq<Frame>, clock: seq<int>, routerMac: seq<bv8>,
                                             decode: seq<bv8> -> Layers)
    requires |clock| == |buffer|
    requires Aggregate(buffer, clock, routerMac, decode).Some?
    ensures var repository := Aggregate(buffer, clock, routerMac, decode).value;
            forall key :: (key in repository <==>
                            exists i :: 0 <= i < |buffer| && Counts(buffer[i], key, routerMac, decode))
    ensures var repository := Aggregate(buffer, clock, routerMac, decode).value;
            forall key :: key in repository ==>
              repository[key] == Record(key, ClassBytes(buffer, key, routerMac, decode),
                                        LastTime(buffer, clock, key, routerMac, decode))
    ensures Keyed(Aggregate(buffer, clock, routerMac, decode).value)
    decreases |buffer|
  {
    if buffer != [] {
      var n := |buffer| - 1;
      AggregateContents(buffer[..n], clock[..n], routerMac, decode);
      AggregateStep(buffer, clock, routerMac, decode);
    }
  }

  /** What `AggregateContents` states of a repository built from a bucket. */
  ghost predicate Summarizes(repository: map<RawDataType, RawData>, buffer: seq<Frame>, clock: seq<int>,
                             routerMac: seq<bv8>, decode: seq<bv8> -> Layers)
    requires |clock| == |buffer|
  {
    && (forall key :: (key in repository <==>
                        exists i :: 0 <= i < |buffer| && Counts(buffer[i], key, routerMac, decode)))
    && (forall key :: key in repository ==>
          repository[key] == Record(key, ClassBytes(buffer, key, routerMac, decode),
                                    LastTime(buffer, clock, key, routerMac, decode)))
    && Keyed(repository)
  }

  /** A frame of the bucket counts in a class when one of the earlier frames or the last
      one does. */
  lemma CountsSplit(buffer: seq<Frame>, key: RawDataType, routerMac: seq<bv8>, decode: seq<bv8> -> Layers)
    requires buffer != []
    ensures var n := |buffer| - 1;
            (exists i :: 0 <= i < |buffer| && Counts(buffer[i], key, routerMac, decode)) <==>
            (exists i :: 0 <= i < n && Counts(buffer[..n][i], key, routerMac, decode)) ||
            Counts(buffer[n], key, routerMac, decode)
  {
    var n := |buffer| - 1;
    if exists i :: 0 <= i < |buffer| && Counts(buffer[i], key, routerMac, decode) {
      var i :| 0 <= i < |buffer| && Counts(buffer[i], key, routerMac, decode);
      if i < n {
        assert Counts(buffer[..n][i], key, routerMac, decode);
      }
    }
    if exists i :: 0 <= i < n && Counts(buffer[..n][i], key, routerMac, decode) {
      var i :| 0 <= i < n && Counts(buffer[..n][i], key, routerMac, decode);
      assert buffer[..n][i] == buffer[i];
    }
  }

  /** One more frame keeps the repository a summary of the bucket. */
  lemma AggregateStep(buffer: seq<Frame>, clock: seq<int>, routerMac: seq<bv8>, decode: seq<bv8> -> Layers)
    requires |clock| == |buffer| && buffer != []
    requires Aggregate(buffer, clock, routerMac, decode).Some?
    requires var n := |buffer| - 1;
             && Aggregate(buffer[..n], clock[..n], routerMac, decode).Some?
             && Summarizes(Aggregate(buffer[..n], clock[..n], routerMac, decode).value, buffer[..n], clock[..n],
                           routerMac, decode)
    ensures Summarizes(Aggregate(buffer, clock, routerMac, decode).value, buffer, clock, routerMac, decode)
  {
    var n := |buffer| - 1;
    var front, f := buffer[..n], buffer[n];
    var repository := Aggregate(front, clock[..n], routerMac, decode).value;
    var after := Aggregate(buffer, clock, routerMac, decode).value;
    assert Some(after) == Step(repository, f, clock[n], routerMac, decode);
    forall key
      ensures (key in after <==> exists i :: 0 <= i < |buffer| && Counts(buffer[i], key, routerMac, decode))
      ensures key in after ==>
                after[key] == Record(key, ClassBytes(buffer, key, routerMac, decode),
                                     LastTime(buffer, clock, key, routerMac, decode))
      ensures key in after ==> KeyOf(after[key]) == key
    {
      CountsSplit(buffer, key, routerMac, decode);
      if Counts(f, key, routerMac, decode) {
        var originalData := Encapsulated(f.udp.value.payload).value;
        assert key == Classify(decode(originalData), routerMac);
        if key !in repository {
          ClassBytesNone(front, key, routerMac, decode);
        }
      } else if IsTzsp(f) {
        var originalData := Encapsulated(f.udp.value.payload).value;
        var key0 := Classify(decode(originalData), routerMac);
        assert key != key0;
      }
    }
  }

  /** Reading the TZSP header: the tag byte decides where the encapsulated frame starts.
      `None` where the source indexes or slices out of range and panics. */
  method ReadTzsp(payload: seq<bv8>) returns (originalData: Option<seq<bv8>>)
    ensures originalData == Encapsulated(payload)
  {
    if |payload| <= 4 {
      return None;
    }
    var taggedFields := payload[4];
    var firstDataIndex := 0;
    if taggedFields == 0 || taggedFields == 1 {
      firstDataIndex := 5;
    } else {
      if |payload| <= 5 {
        return None;
      }
      var additionalLength := payload[5] as nat;
      firstDataIndex := additionalLength + 6;
    }
    if firstDataIndex > |payload| {
      return None;
    }
    originalData := Some(payload[firstDataIndex..]);
  }

  /** The field-by-field reading of the decoded layers, later layers overwriting earlier ones. */
  method ClassifyPacket(packet: Layers, routerMac: seq<bv8>) returns (rawDataType: RawDataType)
    ensures rawDataType == Classify(packet, routerMac)
  {
    var networkProtocol, transportProtocol, srcPort, dstPort, direction := 0, 0, 0, 0, 0;
    if packet.ethernet.Some? {
      networkProtocol := packet.ethernet.value.ethernetType;
      if packet.ethernet.value.srcMac == routerMac {
        direction := 1;
      }
    }
    if packet.ipv4.Some? {
      transportProtocol := packet.ipv4.value;
    }
    if packet.ipv6.Some? {
      transportProtocol := packet.ipv6.value;
    }
    if packet.tcp.Some? {
      srcPort, dstPort := packet.tcp.value.src, packet.tcp.value.dst;
    }
    if packet.udp.Some? {
      srcPort, dstPort := packet.udp.value.src, packet.udp.value.dst;
    }
    rawDataType := RawDataType(networkProtocol, transportProtocol, srcPort, dstPort, direction);
  }

  /** The loop of `processFramesBucket` over the frames; `None` when the source panics on a
      TZSP header. */
  method AggregateFrames(buffer: seq<Frame>, clock: seq<int>, routerMac: seq<bv8>, decode: seq<bv8> -> Layers)
    returns (outcome: Option<map<RawDataType, RawData>>)
    requires |clock| == |buffer|
    ensures outcome == Aggregate(buffer, clock, routerMac, decode)
  {
    var repository: map<RawDataType, RawData> := map[];
    for i := 0 to |buffer|
      invariant Aggregate(buffer[..i], clock[..i], routerMac, decode) == Some(repository)
    {
      assert buffer[..i + 1][..i] == buffer[..i] && clock[..i + 1][..i] == clock[..i];
      var frame := buffer[i];
      if frame.udp.Some? && frame.udp.value.dstPort == PORT_TZSP {
        var read := ReadTzsp(frame.udp.value.payload);
        if read.None? {
          PanicPersists(buffer, clock, routerMac, decode, i + 1);
          return None;
        }
        var originalData := read.value;
        var rawDataType := ClassifyPacket(decode(originalData), routerMac);
        if rawDataType in repository {
          var data := repository[rawDataType];
          data := data.(bytes := data.bytes + |originalData|, time := clock[i]);
          repository := repository[rawDataType := data];
        } else {
          repository := repository[rawDataType := Record(rawDataType, |originalData|, clock[i])];
        }
      }
    }
    assert buffer[..|buffer|] == buffer && clock[..|clock|] == clock;
    outcome := Some(repository);
  }

  /** Once a header cannot be read, the whole bucket fails. */
  lemma {:induction false} PanicPersists(buffer: seq<Frame>, clock: seq<int>, routerMac: seq<bv8>,
                                         decode: seq<bv8> -> Layers, i: nat)
    requires |clock| == |buffer| && i <= |buffer|
    requires Aggregate(buffer[..i], clock[..i], routerMac, decode).None?
    ensures Aggregate(buffer, clock, routerMac, decode).None?
    decreases |buffer| - i
  {
    if i < |buffer| {
      assert buffer[..i + 1][..i] == buffer[..i] && clock[..i + 1][..i] == clock[..i];
      PanicPersists(buffer, clock, routerMac, decode, i + 1);
    } else {
      assert buffer[..i] == buffer && clock[..i] == clock;
    }
  }

  /** The loop state of `repositoryToSlice`: `slice` holds, in the order `listed`, the
      aggregates of the distinct keys `done` already taken out of `keys`. */
  ghost predicate Listed<K, V>(repository: map<K, V>, keys: set<K>, done: set<K>, listed: seq<K>, slice: seq<V>)
  {
    && keys !! done && keys + done == repository.Keys
    && |listed| == |slice| == |done|
    && (forall i :: 0 <= i < |listed| ==> listed[i] in done && slice[i] == repository[listed[i]])
    && (forall i, j :: 0 <= i < j < |listed| ==> listed[i] != listed[j])
    && (forall key :: key in done ==> repository[key] in slice)
  }

  lemma ListedStep<K, V>(repository: map<K, V>, keys: set<K>, done: set<K>, listed: seq<K>, slice: seq<V>, key: K)
    requires Listed(repository, keys, done, listed, slice) && key in keys
    ensures Listed(repository, keys - {key}, done + {key}, listed + [key], slice + [repository[key]])
  {
    var listed', slice' := listed + [key], slice + [repository[key]];
    forall i | 0 <= i < |listed'|
      ensures listed'[i] in done + {key} && slice'[i] == repository[listed'[i]]
    {
      if i < |listed| {
        assert listed'[i] == listed[i] && slice'[i] == slice[i];
      }
    }
    forall k | k in done + {key}
      ensures repository[k] in slice'
    {
      if k != key {
        assert repository[k] in slice;
      } else {
        assert slice'[|slice|] == repository[key];
      }
    }
  }

  /** The loop over the repository: its aggregates, each once, in whatever order the map is
      walked in. */
  method RepositoryToSlice(repository: map<RawDataType, RawData>) returns (slice: seq<RawData>)
    ensures |slice| == |repository|
    ensures forall key :: key in repository ==> repository[key] in slice
    ensures forall i :: 0 <= i < |slice| ==> slice[i] in repository.Values
    ensures Keyed(repository) ==> forall i, j :: 0 <= i < j < |slice| ==> slice[i] != slice[j]
  {
    slice := [];
    var keys := repository.Keys;
    ghost var done: set<RawDataType> := {};
    ghost var listed: seq<RawDataType> := [];
    while keys != {}
      invariant Listed(repository, keys, done, listed, slice)
      decreases keys
    {
      var key :| key in keys;
      ListedStep(repository, keys, done, listed, slice, key);
      slice := slice + [repository[key]];
      listed := listed + [key];
      keys, done := keys - {key}, done + {key};
    }
    assert done == repository.Keys;
    forall i | 0 <= i < |slice|
      ensures slice[i] in repository.Values
    {
      assert listed[i] in repository;
    }
    if Keyed(repository) {
      forall i, j | 0 <= i < j < |slice|
        ensures slice[i] != slice[j]
      {
        assert KeyOf(slice[i]) == listed[i] && KeyOf(slice[j]) == listed[j];
      }
    }
  }

  /** `written` lists the aggregates of a bucket in some order: one per class that some
      frame is counted in, each holding the total length and last time of its class. */
  ghost predicate BucketListing(written: seq<RawData>, buffer: seq<Frame>, clock: seq<int>,
                                routerMac: seq<bv8>, decode: seq<bv8> -> Layers)
    requires |clock| == |buffer|
  {
    && (forall j :: 0 <= j < |written| ==>
          && written[j] == Record(KeyOf(written[j]), ClassBytes(buffer, KeyOf(written[j]), routerMac, decode),
                                  LastTime(buffer, clock, KeyOf(written[j]), routerMac, decode))
          && exists i :: 0 <= i < |buffer| && Counts(buffer[i], KeyOf(written[j]), routerMac, decode))
    && (forall i, key :: 0 <= i < |buffer| && Counts(buffer[i], key, routerMac, decode) ==>
          exists j :: 0 <= j < |written| && KeyOf(written[j]) == key)
    && (forall j, k :: 0 <= j < k < |written| ==> KeyOf(written[j]) != KeyOf(written[k]))
  }

  lemma SliceListsBucket(slice: seq<RawData>, buffer: seq<Frame>, clock: seq<int>, routerMac: seq<bv8>,
                         decode: seq<bv8> -> Layers)
    requires |clock| == |buffer| && Aggregate(buffer, clock, routerMac, decode).Some?
    requires var repository := Aggregate(buffer, clock, routerMac, decode).value;
             && (forall key :: key in repository ==> repository[key] in slice)
             && (forall i :: 0 <= i < |slice| ==> slice[i] in repository.Values)
             && (forall i, j :: 0 <= i < j < |slice| ==> slice[i] != slice[j])
    ensures BucketListing(slice, buffer, clock, routerMac, decode)
  {
    var repository := Aggregate(buffer, clock, routerMac, decode).value;
    AggregateContents(buffer, clock, routerMac, decode);
    forall j | 0 <= j < |slice|
      ensures KeyOf(slice[j]) in repository && repository[KeyOf(slice[j])] == slice[j]
    {
      assert slice[j] in repository.Values;
      var key :| key in repository && repository[key] == slice[j];
    }
    forall i, key | 0 <= i < |buffer| && Counts(buffer[i], key, routerMac, decode)
      ensures exists j :: 0 <= j < |slice| && KeyOf(slice[j]) == key
    {
      var j :| 0 <= j < |slice| && slice[j] == repository[key];
      assert KeyOf(slice[j]) == key;
    }
  }

  /** `processFramesBucket`: the frames are aggregated per class, and when some class was
      seen its aggregates are written to the store. A header that cannot be read panics
      (`panicked`) before anything is written. */
  method ProcessFramesBucket(store: StatisticalStore.StatisticalData, buffer: seq<Frame>, clock: seq<int>,
                             routerMac: seq<bv8>, decode: seq<bv8> -> Layers)
    returns (panicked: bool, written: seq<RawData>)
    requires |clock| == |buffer|
    modifies store
    ensures panicked <==> Unreadable(buffer)
    ensures panicked ==> written == []
    ensures !panicked ==> BucketListing(written, buffer, clock, routerMac, decode)
    ensures store.State() == StatisticalStore.WriteEntries(old(store.State()), written)
  {
    AggregateFails(buffer, clock, routerMac, decode);
    var outcome := AggregateFrames(buffer, clock, routerMac, decode);
    if outcome.None? {
      return true, [];
    }
    var repository := outcome.value;
    AggregateContents(buffer, clock, routerMac, decode);
    panicked := false;
    written := [];
    if |repository| != 0 {
      written := RepositoryToSlice(repository);
      store.WriteNewDataEntries(written);
    }
    SliceListsBucket(written, buffer, clock, routerMac, decode);
  }

  /** A bucket without a readable TZSP datagram writes nothing. */
  lemma NoTzspNothingWritten(buffer: seq<Frame>, clock: seq<int>, routerMac: seq<bv8>,
                             decode: seq<bv8> -> Layers, written: seq<RawData>)
    requires |clock| == |buffer|
    requires forall i :: 0 <= i < |buffer| ==> !IsTzsp(buffer[i])
    requires BucketListing(written, buffer, clock, routerMac, decode)
    ensures written == []
  {
    assert forall i, key :: 0 <= i < |buffer| ==> !Counts(buffer[i], key, routerMac, decode);
    var first := if written != [] then KeyOf(written[0]) else RawDataType(0, 0, 0, 0, 0);
  }
}
