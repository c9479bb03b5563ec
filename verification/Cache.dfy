/** The bookkeeping of one cache: its request table, its queues, and the message scheduler. */
module Caches {
  import opened CacheAddress
  import opened Ort
  import opened Sequences

  datatype CacheType = L1I | L1D | L2 | L3 | GpuS | GpuV | GpuL2

  datatype Queue = RxTop | RxBottom | Coherence | Retry | WriteBacks | TxTop | TxBottom | Pending | OrtList

  datatype Access = Fetch | Load | Store | NcStore | FetchRetry | LoadRetry | StoreRetry | OtherAccess

  datatype Maybe<T> = Just(value: T) | Fatal

  // ----- retries

  function CpuRetryState(access: Access): Maybe<Access> {
    match access
    case Fetch => Just(FetchRetry)
    case Load => Just(LoadRetry)
    case Store => Just(StoreRetry)
    case _ => Fatal
  }

  function GpuRetryState(access: Access): Maybe<Access> {
    match access
    case Load => Just(LoadRetry)
    case Store => Just(StoreRetry)
    case NcStore => Just(StoreRetry)
    case _ => Fatal
  }

  predicate IsRetry(access: Access) {
    access in {FetchRetry, LoadRetry, StoreRetry}
  }

  /** A retry state is never itself turned into a retry state. */
  lemma RetryOnce(access: Access)
    ensures CpuRetryState(access).Just? ==>
              IsRetry(CpuRetryState(access).value) && CpuRetryState(CpuRetryState(access).value) == Fatal
    ensures GpuRetryState(access).Just? ==>
              IsRetry(GpuRetryState(access).value) && GpuRetryState(GpuRetryState(access).value) == Fatal
  {
  }

  class Request {
    const id: nat
    const address: nat
    const cpuAccess: Access
    const gpuAccess: Access
    const startCycle: int
    var tag: nat
    var set_: nat
    var offset: nat
    var coalesced: bool
    var conflict: bool
    var access: Access
    var flushPending: bool

    constructor (id: nat, address: nat, cpuAccess: Access, gpuAccess: Access, startCycle: int)
      ensures this.id == id && this.address == address && this.cpuAccess == cpuAccess
      ensures this.gpuAccess == gpuAccess && this.startCycle == startCycle
      ensures !coalesced && !conflict && !flushPending
    {
      this.id, this.address, this.cpuAccess, this.gpuAccess, this.startCycle := id, address, cpuAccess, gpuAccess, startCycle;
      tag, set_, offset, coalesced, conflict, access, flushPending := 0, 0, 0, false, false, OtherAccess, false;
    }

    /** What the table and the coalescer see of a request. */
    function View(): Packet
      reads this
    {
      Packet(id, tag, set_, coalesced, conflict, IsRetry(access))
    }
  }

  ghost predicate Views(list: seq<Request>, packets: seq<Packet>, nodes: set<Request>)
    reads nodes
  {
    && |packets| == |list|
    && (forall i :: 0 <= i < |list| ==> list[i] in nodes && list[i].View() == packets[i])
    && forall i, j :: 0 <= i < j < |list| ==> list[i] != list[j]
  }

  // ----- the scheduler's decision

  datatype Limits = Limits(queueSize: nat, l3QueueSize: nat, gpuQueueSize: nat)

  /** What the scheduler looks at. */
  datatype Status = Status(
    kind: CacheType, ortStatus: nat, mshr: nat, coalesced: nat, maxCoal: nat,
    rxTop: nat, rxBottom: nat, txBottom: nat, retry: nat, pending: nat, writeBacks: nat, coherence: nat,
    writeBackReady: bool)

  datatype Choice = Head(queue: Queue) | ReadyWriteBack | Stall | NoPacket

  /** The limit on write-backs and on pending requests. */
  function BufferLimit(kind: CacheType, limits: Limits): nat {
    match kind
    case L3 => limits.l3QueueSize
    case GpuL2 => limits.gpuQueueSize
    case _ => limits.queueSize
  }

  /** Room everywhere that a new miss may need it. */
  predicate CanProcess(st: Status, limits: Limits) {
    && st.ortStatus < st.mshr
    && st.coalesced < st.maxCoal
    && st.writeBacks < BufferLimit(st.kind, limits)
    && st.retry < limits.queueSize
    && st.txBottom < limits.queueSize
    && st.pending < BufferLimit(st.kind, limits)
  }

  predicate IsCpu(kind: CacheType) {
    kind in {L1I, L1D, L2, L3}
  }

  function FirstOf(nonEmpty: bool, queue: Queue, otherwise: Choice): Choice {
    if nonEmpty then Head(queue) else otherwise
  }

  /** Retries first; new requests and idle write-backs only with room everywhere; the CPU caches
      prefer replies to coherence messages, the GPU caches the other way round. */
  function Schedule(st: Status, limits: Limits): Choice {
    var writeBack := if st.writeBackReady then ReadyWriteBack else Stall;
    if CanProcess(st, limits) then
      var top := FirstOf(st.rxTop > 0, RxTop, if st.writeBacks > 0 then writeBack else NoPacket);
      var below := if IsCpu(st.kind)
                   then FirstOf(st.rxBottom > 0, RxBottom, FirstOf(st.coherence > 0, Coherence, top))
                   else FirstOf(st.coherence > 0, Coherence, FirstOf(st.rxBottom > 0, RxBottom, top));
      FirstOf(st.retry > 0, Retry, below)
    else
      var below := FirstOf(st.rxBottom > 0, RxBottom, FirstOf(st.coherence > 0, Coherence, Stall));
      FirstOf(st.retry > 0, Retry, if st.writeBacks > 0 && st.writeBackReady then ReadyWriteBack else below)
  }

  /** What is taken, in terms of the sizes: of the table, the coalescer, the write-back and the pending
      buffer, whose limit is the L3's, the GPU's or the common one, and of the queues. */
  lemma ScheduleExactly(st: Status, limits: Limits)
    requires st.writeBackReady ==> st.writeBacks > 0
    ensures var choice := Schedule(st, limits);
            var buffer := if st.kind == L3 then limits.l3QueueSize
                          else if st.kind == GpuL2 then limits.gpuQueueSize else limits.queueSize;
            var room := && st.ortStatus < st.mshr && st.coalesced < st.maxCoal
                        && st.writeBacks < buffer && st.pending < buffer
                        && st.retry < limits.queueSize && st.txBottom < limits.queueSize;
            var gpu := st.kind in {GpuS, GpuV, GpuL2};
            && (choice == Head(Retry) <==> st.retry > 0)
            && (choice == Head(RxTop) <==> st.rxTop > 0 && room && st.retry == 0 && st.rxBottom == 0 && st.coherence == 0)
            && (choice == Head(RxBottom) <==>
                  st.rxBottom > 0 && st.retry == 0 && (if room then gpu ==> st.coherence == 0 else !st.writeBackReady))
            && (choice == Head(Coherence) <==>
                  && st.coherence > 0 && st.retry == 0
                  && (if room then gpu || st.rxBottom == 0 else !st.writeBackReady && st.rxBottom == 0))
            && (choice == ReadyWriteBack <==>
                  && st.writeBackReady && st.retry == 0
                  && (room ==> st.rxBottom == 0 && st.coherence == 0 && st.rxTop == 0))
            && (choice == Stall <==>
                  && st.retry == 0 && st.rxBottom == 0 && st.coherence == 0 && !st.writeBackReady
                  && (room ==> st.rxTop == 0 && st.writeBacks > 0))
            && (choice == NoPacket <==>
                  && room && st.retry == 0 && st.rxBottom == 0 && st.coherence == 0 && st.rxTop == 0 && st.writeBacks == 0)
  {
  }

  /** A new request is taken exactly when there is room everywhere and nothing else waits but
      write-backs; room in the table is a free row, so that its size is below the limit. */
  lemma AdmissionMeansRoom(st: Status, limits: Limits, rows: seq<Row>)
    requires AllWhole(rows) && st.ortStatus == FirstEmpty(rows) && st.mshr == |rows|
    requires st.writeBackReady ==> st.writeBacks > 0
    ensures var buffer := if st.kind == L3 then limits.l3QueueSize
                          else if st.kind == GpuL2 then limits.gpuQueueSize else limits.queueSize;
            Schedule(st, limits) == Head(RxTop) <==>
              && Occupied(rows) < |rows| && st.coalesced < st.maxCoal
              && st.writeBacks < buffer && st.pending < buffer
              && st.retry < limits.queueSize && st.txBottom < limits.queueSize
              && st.rxTop > 0 && st.retry == 0 && st.rxBottom == 0 && st.coherence == 0
    ensures Schedule(st, limits) == Head(RxTop) ==> FirstEmpty(rows) < |rows|
  {
    StatusMeansFull(rows);
    ScheduleExactly(st, limits);
  }

  /** With a full table no new request is taken, whatever waits. */
  lemma FullMeansNoAdmission(st: Status, limits: Limits, rows: seq<Row>)
    requires AllWhole(rows) && st.ortStatus == FirstEmpty(rows) && st.mshr == |rows| && Occupied(rows) == |rows|
    ensures Schedule(st, limits) != Head(RxTop) && Schedule(st, limits) != NoPacket
  {
    StatusMeansFull(rows);
  }

  /** The sources of packets, from the most to the least urgent. New requests are no source while some
      buffer is full, and write-backs then come right after the retries; the GPU caches put coherence
      messages before replies, but only with room everywhere. */
  function Priority(kind: CacheType, room: bool): seq<Choice> {
    if !room then [Head(Retry), ReadyWriteBack, Head(RxBottom), Head(Coherence)]
    else if IsCpu(kind) then [Head(Retry), Head(RxBottom), Head(Coherence), Head(RxTop), ReadyWriteBack]
    else [Head(Retry), Head(Coherence), Head(RxBottom), Head(RxTop), ReadyWriteBack]
  }

  /** Whether a source has a packet to offer. */
  predicate Offers(st: Status, source: Choice) {
    match source
    case Head(Retry) => st.retry > 0
    case Head(RxBottom) => st.rxBottom > 0
    case Head(Coherence) => st.coherence > 0
    case Head(RxTop) => st.rxTop > 0
    case ReadyWriteBack => st.writeBackReady
    case _ => false
  }

  ghost predicate IsFirstOffer(st: Status, sources: seq<Choice>, i: nat) {
    i < |sources| && Offers(st, sources[i]) && forall j :: 0 <= j < i ==> !Offers(st, sources[j])
  }

  /** The schedule is the most urgent source that offers a packet. Without an offer the cache stalls if
      some buffer is full or write-backs wait for a flush, and the simulation is aborted otherwise. */
  lemma ScheduleIsFirstOffer(st: Status, limits: Limits)
    requires st.writeBackReady ==> st.writeBacks > 0
    ensures var sources, choice := Priority(st.kind, CanProcess(st, limits)), Schedule(st, limits);
            && (forall i :: 0 <= i < |sources| ==> (IsFirstOffer(st, sources, i) <==> choice == sources[i]))
            && (choice == NoPacket <==>
                  && CanProcess(st, limits) && st.writeBacks == 0
                  && forall i :: 0 <= i < |sources| ==> !Offers(st, sources[i]))
            && (choice == Stall <==>
                  && (!CanProcess(st, limits) || st.writeBacks > 0)
                  && forall i :: 0 <= i < |sources| ==> !Offers(st, sources[i]))
  {
    var sources, choice := Priority(st.kind, CanProcess(st, limits)), Schedule(st, limits);
    var last := sources[|sources| - 1];
    assert Offers(st, sources[0]) <==> st.retry > 0;
    assert !(Offers(st, sources[0]) || Offers(st, sources[1]) || Offers(st, sources[2]) || Offers(st, sources[3]) || Offers(st, last))
      <==> choice in {NoPacket, Stall};
    if choice !in {NoPacket, Stall} {
      var k := LeastOffer(st, sources, if choice == sources[0] then 0 else if choice == sources[1] then 1
                                       else if choice == sources[2] then 2 else if choice == sources[3] then 3 else 4);
      assert choice == sources[k];
    }
  }

  lemma LeastOffer(st: Status, sources: seq<Choice>, i: nat) returns (k: nat)
    requires i < |sources| && Offers(st, sources[i])
    ensures k <= i && IsFirstOffer(st, sources, k)
  {
    if j :| 0 <= j < i && Offers(st, sources[j]) {
      k := LeastOffer(st, sources, j);
    } else {
      k := i;
    }
  }

  /** The date from which the search for the oldest request starts. */
  const NEVER := 0xFFFFFFFFFFFFFF

  class Cache {
    const kind: CacheType
    const geometry: Geometry
    const mshrSize: nat
    const assoc: nat
    const maxCoal: nat
    const limits: Limits
    const ort: array2<int>
    var queues: map<Queue, seq<Request>>
    var lastQueue: Queue
    /** How often the event count of the cache was advanced. */
    var advanced: nat
    /** The rows of ort. */
    ghost var rows: seq<Row>

    ghost predicate Shows(rows: seq<Row>)
      reads ort
    {
      && ort.Length0 == mshrSize == |rows| && ort.Length1 == 3
      && forall i :: 0 <= i < mshrSize ==> ort[i, 0] == rows[i].tag && ort[i, 1] == rows[i].set_ && ort[i, 2] == rows[i].flag
    }

    ghost predicate Valid()
      reads this, ort
    {
      Shows(rows) && AllWhole(rows) && geometry.Ok() && lastQueue in queues && forall q: Queue :: q in queues
    }

    constructor (kind: CacheType, geometry: Geometry, mshrSize: nat, assoc: nat, maxCoal: nat, limits: Limits)
      requires geometry.Ok()
      ensures Valid() && fresh(ort)
      ensures this.kind == kind && this.geometry == geometry && this.mshrSize == mshrSize && this.assoc == assoc
      ensures this.maxCoal == maxCoal && this.limits == limits
      ensures forall i :: 0 <= i < |rows| ==> rows[i] == NO_ROW
      ensures forall q: Queue :: queues[q] == []
    {
      this.kind, this.geometry, this.mshrSize, this.assoc := kind, geometry, mshrSize, assoc;
      this.maxCoal, this.limits := maxCoal, limits;
      ort := new int[mshrSize, 3]((i, k) => -1);
      queues := map[RxTop := [], RxBottom := [], Coherence := [], Retry := [], WriteBacks := [],
                    TxTop := [], TxBottom := [], Pending := [], OrtList := []];
      lastQueue, advanced := RxTop, 0;
      rows := seq(mshrSize, i => NO_ROW);
      new;
      forall q: Queue ensures q in queues && queues[q] == [] {
        match q {
          case RxTop | RxBottom | Coherence | Retry | WriteBacks | TxTop | TxBottom | Pending | OrtList =>
        }
      }
    }

    // ----- the table

    /** The first empty row. */
    method GetOrtStatus() returns (i: nat)
      requires Valid()
      ensures i == FirstEmpty(rows)
    {
      i := 0;
      while i < mshrSize
        invariant i <= mshrSize && forall j :: 0 <= j < i ==> !rows[j].Empty()
      {
        if ort[i, 0] == -1 && ort[i, 1] == -1 {
          break;
        }
        i := i + 1;
      }
    }

    method OrtSet(entry: nat, tag: nat, set_: nat)
      requires Valid() && entry < mshrSize
      modifies ort, this`rows
      ensures Valid() && rows == old(rows)[entry := Row(tag, set_, 1)]
    {
      ort[entry, 0] := tag;
      ort[entry, 1] := set_;
      ort[entry, 2] := 1;
      rows := rows[entry := Row(tag, set_, 1)];
    }

    /** Fills the first empty row, which must exist. */
    method OrtSetRow(tag: nat, set_: nat)
      requires Valid() && FirstEmpty(rows) < |rows|
      modifies ort, this`rows
      ensures Valid() && rows == SetRow(old(rows), tag, set_)
    {
      var i := 0;
      while i < mshrSize
        invariant i <= mshrSize && forall j :: 0 <= j < i ==> !rows[j].Empty()
      {
        assert rows[i].Whole();
        if ort[i, 0] == -1 && ort[i, 1] == -1 && ort[i, 2] == -1 {
          break;
        }
        i := i + 1;
      }
      OrtSet(i, tag, set_);
    }

    method OrtSearch(tag: int, set_: int) returns (i: nat)
      requires Valid()
      ensures i == FirstMatch(rows, tag, set_)
    {
      i := 0;
      while i < mshrSize
        invariant i <= mshrSize && forall j :: 0 <= j < i ==> !(rows[j].tag == tag && rows[j].set_ == set_)
      {
        if ort[i, 0] == tag && ort[i, 1] == set_ {
          break;
        }
        i := i + 1;
      }
    }

    /** The row of a pair, the number of rows of its set, and the number of filled rows. */
    method OrtGetRowSetsSize(tag: nat, set_: nat) returns (hitRow: nat, numSets: nat, ortSize: nat)
      requires Valid()
      ensures hitRow == FirstMatch(rows, tag, set_) && numSets == CountSet(rows, set_) && ortSize == Occupied(rows)
    {
      hitRow := OrtSearch(tag, set_);
      numSets := 0;
      for i := 0 to mshrSize
        invariant numSets == Tally(rows[..i], OfSet(set_))
      {
        assert rows[..i + 1] == rows[..i] + [rows[i]];
        TallyAppend(rows[..i], rows[i], OfSet(set_));
        if ort[i, 1] == set_ {
          numSets := numSets + 1;
        }
      }
      ortSize := 0;
      for i := 0 to mshrSize
        invariant ortSize == Tally(rows[..i], Filled())
      {
        assert rows[..i + 1] == rows[..i] + [rows[i]];
        TallyAppend(rows[..i], rows[i], Filled());
        if ort[i, 0] != -1 {
          assert rows[i].Whole();
          ortSize := ortSize + 1;
        }
      }
      assert rows[..mshrSize] == rows;
    }

    /** The address of the request lies in the block that it was probed to. */
    ghost predicate Probed(r: Request)
      requires geometry.Ok()
      reads r`tag, r`set_
    {
      && geometry.IsWord(r.address)
      && Probe(geometry, r.address).Decoded?
      && Probe(geometry, r.address).p.tag == r.tag && Probe(geometry, r.address).p.set_ == r.set_
    }

    /** The GPU's vector and L2 caches go by the GPU's access type. */
    function RetryState(r: Request): Maybe<Access> {
      if kind == GpuL2 || kind == GpuV then GpuRetryState(r.gpuAccess) else CpuRetryState(r.cpuAccess)
    }

    /** Fetches, loads and stores are retried as what they were; only the GPU's vector and L2 caches know
        non-coherent stores, which they retry as stores, and no fetches. */
    lemma RetryTypes(r: Request)
      ensures var gpu := kind == GpuL2 || kind == GpuV;
              var a := if gpu then r.gpuAccess else r.cpuAccess;
              && (RetryState(r) == Just(FetchRetry) <==> a == Fetch && !gpu)
              && (RetryState(r) == Just(LoadRetry) <==> a == Load)
              && (RetryState(r) == Just(StoreRetry) <==> a == Store || (a == NcStore && gpu))
              && (RetryState(r) == Fatal <==> a !in {Fetch, Load, Store, NcStore} || (a == Fetch && gpu) || (a == NcStore && !gpu))
    {
    }

    /** Empties the row of the block of a request, which must exist. */
    method OrtClear(r: Request)
      requires Valid() && Probed(r) && FirstMatch(rows, r.tag, r.set_) < |rows|
      modifies ort, this`rows, r`tag, r`set_, r`offset
      ensures Valid() && r.View() == old(r.View()) && rows == ClearRow(old(rows), r.tag, r.set_)
    {
      var p := Probe(geometry, r.address).p;
      r.tag, r.set_, r.offset := p.tag, p.set_, p.offset;
      var row := OrtSearch(r.tag, r.set_);
      ort[row, 0] := -1;
      ort[row, 1] := -1;
      ort[row, 2] := -1;
      rows := rows[row := NO_ROW];
    }

    // ----- misses and retries

    method ParkInOrtList(r: Request)
      requires lastQueue in queues && OrtList in queues
      modifies this`queues
      ensures queues == var removed := old(queues)[lastQueue := RemoveFirst(old(queues)[lastQueue], r)];
                        removed[OrtList := removed[OrtList] + [r]]
    {
      queues := queues[lastQueue := RemoveFirst(queues[lastQueue], r)];
      queues := queues[OrtList := queues[OrtList] + [r]];
    }

    /** A request that missed goes into the table; it is moved from the queue it came from to the
        coalescer if it has to wait. */
    method CheckOrt(r: Request)
      requires Valid() && !r.coalesced && FirstEmpty(rows) < |rows|
      modifies this`rows, this`queues, ort, r`coalesced, r`conflict
      ensures Valid()
      ensures var c := Check(old(rows), assoc, old(r.View()));
              && rows == c.rows && r.View() == c.packet
              && queues == if !c.packet.coalesced then old(queues) else
                             var removed := old(queues)[lastQueue := RemoveFirst(old(queues)[lastQueue], r)];
                             removed[OrtList := removed[OrtList] + [r]]
    {
      var hitRow, numSets, ortSize := OrtGetRowSetsSize(r.tag, r.set_);
      assert ortSize < mshrSize by {
        StatusMeansFull(rows);
      }
      if (hitRow == mshrSize && numSets < assoc) || r.conflict {
        if r.conflict {
          r.conflict := false;
        }
        OrtSetRow(r.tag, r.set_);
      } else if hitRow == mshrSize && numSets >= assoc {
        OrtSetRow(r.tag, r.set_);
        r.coalesced := true;
        r.conflict := true;
        ParkInOrtList(r);
      } else {
        assert ort[hitRow, 0] == r.tag && ort[hitRow, 1] == r.set_;
        r.coalesced := true;
        assert !r.conflict;
        ParkInOrtList(r);
      }
    }

    /** r is parked for a conflict in the set. */
    predicate ConflictsIn(r: Request, set_: nat)
      reads r
    {
      r.set_ == set_ && r.conflict
    }

    /** The earliest start of a request that is parked for a conflict in the set, if one started before
        the given date, and that date otherwise. */
    method GetOldestPacket(set_: nat) returns (start: int)
      requires OrtList in queues
      ensures var list := queues[OrtList];
              && (forall i :: 0 <= i < |list| && ConflictsIn(list[i], set_) ==> start <= list[i].startCycle)
              && (start == NEVER || exists i :: 0 <= i < |list| && ConflictsIn(list[i], set_) && start == list[i].startCycle)
              && start <= NEVER
    {
      start := NEVER;
      var list := queues[OrtList];
      for i := 0 to |list|
        invariant start <= NEVER
        invariant forall j :: 0 <= j < i && ConflictsIn(list[j], set_) ==> start <= list[j].startCycle
        invariant start == NEVER || exists j :: 0 <= j < i && ConflictsIn(list[j], set_) && start == list[j].startCycle
      {
        if ConflictsIn(list[i], set_) {
          if list[i].startCycle < start {
            start := list[i].startCycle;
          }
        }
      }
    }

    /** Moves the i-th parked request r to the retry queue. */
    method Release(i: nat, r: Request)
      requires (forall q: Queue :: q in queues) && i < |queues[OrtList]| && r == queues[OrtList][i] && RetryState(r).Just?
      modifies this`queues, this`advanced, r`access
      ensures r.access == RetryState(r).value && IsRetry(r.access)
      ensures var a := if kind == GpuL2 || kind == GpuV then r.gpuAccess else r.cpuAccess;
              && (a == Fetch ==> r.access == FetchRetry)
              && (a == Load ==> r.access == LoadRetry)
              && (a in {Store, NcStore} ==> r.access == StoreRetry)
      ensures queues == old(queues)[OrtList := Drop(old(queues[OrtList]), i)][Retry := old(queues[Retry]) + [r]]
      ensures advanced == old(advanced) + 1
    {
      queues := queues[OrtList := Drop(queues[OrtList], i)];
      r.access := RetryState(r).value;
      queues := queues[Retry := queues[Retry] + [r]];
      advanced := advanced + 1;
    }

    /** Lets the i-th parked request r go after a conflict: its row is emptied, to be filled again
        when the retry misses. */
    method ReleaseConflict(i: nat, r: Request)
      requires Valid() && i < |queues[OrtList]| && r == queues[OrtList][i] && RetryState(r).Just?
      requires Probed(r) && FirstMatch(rows, r.tag, r.set_) < |rows|
      modifies this`rows, this`queues, this`advanced, ort, r`tag, r`set_, r`offset, r`coalesced, r`conflict, r`access
      ensures Valid() && rows == ClearRow(old(rows), old(r.tag), old(r.set_))
      ensures r.View() == old(r.View()).(coalesced := false, conflict := true, retried := true)
      ensures r.access == RetryState(r).value
      ensures queues == old(queues)[OrtList := Drop(old(queues[OrtList]), i)][Retry := old(queues[Retry]) + [r]]
      ensures advanced == old(advanced) + 1
    {
      OrtClear(r);
      r.coalesced := false;
      r.conflict := true;
      Release(i, r);
    }

    method FindMerged(tag: nat, set_: nat, ghost parked: seq<Packet>, ghost nodes: set<Request>) returns (i: nat)
      requires OrtList in queues && Views(queues[OrtList], parked, nodes)
      ensures i == FirstMerged(parked, tag, set_)
    {
      var list := queues[OrtList];
      i := 0;
      while i < |list| && !(list[i].tag == tag && list[i].set_ == set_)
        invariant i <= |list| && forall j :: 0 <= j < i ==> !(parked[j].tag == tag && parked[j].set_ == set_)
      {
        assert list[i].View() == parked[i];
        i := i + 1;
      }
      assert i < |list| ==> list[i].View() == parked[i];
    }

    method FindConflict(set_: nat, ghost parked: seq<Packet>, ghost nodes: set<Request>) returns (i: nat)
      requires OrtList in queues && Views(queues[OrtList], parked, nodes)
      ensures i == FirstConflict(parked, set_)
    {
      var list := queues[OrtList];
      i := 0;
      while i < |list| && !(list[i].set_ == set_ && list[i].conflict)
        invariant i <= |list| && forall j :: 0 <= j < i ==> !(parked[j].set_ == set_ && parked[j].conflict)
      {
        assert list[i].View() == parked[i];
        i := i + 1;
      }
      assert i < |list| ==> list[i].View() == parked[i];
    }

    /** Lets the first request that is parked for a conflict in the set go. */
    method FirstConflictGoes(set_: nat, ghost parked: seq<Packet>, ghost nodes: set<Request>)
      requires Valid() && Views(queues[OrtList], parked, nodes)
      requires forall i :: 0 <= i < |queues[OrtList]| ==> RetryState(queues[OrtList][i]).Just?
      requires forall i :: 0 <= i < |queues[OrtList]| ==> Probed(queues[OrtList][i])
      requires var i := FirstConflict(parked, set_);
               i < |parked| ==> FirstMatch(rows, parked[i].tag, parked[i].set_) < |rows|
      modifies this`rows, this`queues, this`advanced, ort
      modifies nodes`tag, nodes`set_, nodes`offset, nodes`coalesced, nodes`conflict, nodes`access
      ensures Valid()
      ensures var i, list := FirstConflict(parked, set_), old(queues[OrtList]);
              && (i == |parked| ==> queues == old(queues) && rows == old(rows) && advanced == old(advanced))
              && (i < |parked| ==>
                    && queues == old(queues)[OrtList := Drop(list, i)][Retry := old(queues[Retry]) + [list[i]]]
                    && list[i].View() == parked[i].(coalesced := false, conflict := true, retried := true)
                    && list[i].access == RetryState(list[i]).value
                    && advanced == old(advanced) + 1
                    && rows == ClearRow(old(rows), parked[i].tag, parked[i].set_))
              && forall x :: x in nodes && (i == |parked| || x != list[i]) ==> x.View() == old(x.View())
    {
      var oldest := GetOldestPacket(set_);
      var i := FindConflict(set_, parked, nodes);
      if i < |queues[OrtList]| {
        var r := queues[OrtList][i];
        assert r.View() == parked[i];
        assert ConflictsIn(r, set_) && r.startCycle >= oldest;
        ReleaseConflict(i, r);
      }
    }

    /** A finished access to (tag, set) lets at most one parked request go. */
    method CoalescedRetry(tag: nat, set_: nat, ghost parked: seq<Packet>, ghost nodes: set<Request>)
      requires Valid() && Views(queues[OrtList], parked, nodes)
      requires forall i :: 0 <= i < |queues[OrtList]| ==> RetryState(queues[OrtList][i]).Just?
      requires forall i :: 0 <= i < |queues[OrtList]| ==> Probed(queues[OrtList][i])
      requires var r := Choose(parked, tag, set_);
               r.Conflict? ==> FirstMatch(rows, parked[r.index].tag, parked[r.index].set_) < |rows|
      modifies this`rows, this`queues, this`advanced, ort
      modifies nodes`tag, nodes`set_, nodes`offset, nodes`coalesced, nodes`conflict, nodes`access
      ensures Valid()
      ensures var r, list := Choose(parked, tag, set_), old(queues[OrtList]);
              && (r == Nothing ==> queues == old(queues) && rows == old(rows) && advanced == old(advanced))
              && (r != Nothing ==>
                    && queues == old(queues)[OrtList := Drop(list, r.index)][Retry := old(queues[Retry]) + [list[r.index]]]
                    && list[r.index].View() == AsReleased(r, parked[r.index])
                    && list[r.index].access == RetryState(list[r.index]).value
                    && advanced == old(advanced) + 1)
              && rows == (if r.Conflict? then ClearRow(old(rows), parked[r.index].tag, parked[r.index].set_) else old(rows))
              && forall x :: x in nodes && (r == Nothing || x != list[r.index]) ==> x.View() == old(x.View())
    {
      var i := FindMerged(tag, set_, parked, nodes);
      if i < |queues[OrtList]| {
        assert queues[OrtList][i].View() == parked[i];
        Release(i, queues[OrtList][i]);
        return;
      }
      FirstConflictGoes(set_, parked, nodes);
    }

    // ----- the scheduler

    /** The first write-back that waits for no flush. */
    ghost predicate IsReadyWriteBack(list: seq<Request>, i: nat)
      reads list
    {
      i < |list| && !list[i].flushPending && forall j :: 0 <= j < i ==> list[j].flushPending
    }

    method SearchWbNotPendingFlush() returns (r: Request?, ghost at: nat)
      requires WriteBacks in queues
      ensures r == null <==> forall j :: 0 <= j < |queues[WriteBacks]| ==> queues[WriteBacks][j].flushPending
      ensures r != null ==> IsReadyWriteBack(queues[WriteBacks], at) && r == queues[WriteBacks][at]
    {
      var list := queues[WriteBacks];
      for i := 0 to |list|
        invariant forall j :: 0 <= j < i ==> list[j].flushPending
      {
        if !list[i].flushPending {
          return list[i], i;
        }
      }
      return null, 0;
    }

    ghost function StatusNow(): Status
      requires forall q: Queue :: q in queues
      reads this`queues, this`rows, queues[WriteBacks]
    {
      Status(kind, FirstEmpty(rows), mshrSize, |queues[OrtList]|, maxCoal, |queues[RxTop]|, |queues[RxBottom]|,
             |queues[TxBottom]|, |queues[Retry]|, |queues[Pending]|, |queues[WriteBacks]|, |queues[Coherence]|,
             exists j :: 0 <= j < |queues[WriteBacks]| && !queues[WriteBacks][j].flushPending)
    }

    method ReadStatus() returns (st: Status, writeBack: Request?, ghost at: nat)
      requires Valid()
      ensures st == StatusNow()
      ensures writeBack != null <==> st.writeBackReady
      ensures writeBack != null ==> IsReadyWriteBack(queues[WriteBacks], at) && writeBack == queues[WriteBacks][at]
    {
      var ortStatus := GetOrtStatus();
      writeBack, at := SearchWbNotPendingFlush();
      st := Status(kind, ortStatus, mshrSize, |queues[OrtList]|, maxCoal, |queues[RxTop]|, |queues[RxBottom]|,
                   |queues[TxBottom]|, |queues[Retry]|, |queues[Pending]|, |queues[WriteBacks]|, |queues[Coherence]|,
                   writeBack != null);
    }

    /** Whether there is room everywhere, checked buffer by buffer. */
    method Admits(st: Status) returns (canProcess: bool)
      ensures canProcess == CanProcess(st, limits)
    {
      canProcess := true;
      if st.ortStatus >= st.mshr {
        canProcess := false;
      }
      if st.coalesced >= st.maxCoal {
        canProcess := false;
      }
      var buffer := BufferLimit(st.kind, limits);
      if st.writeBacks >= buffer {
        canProcess := false;
      }
      if st.retry >= limits.queueSize {
        canProcess := false;
      }
      if st.txBottom >= limits.queueSize {
        canProcess := false;
      }
      if st.pending >= buffer {
        canProcess := false;
      }
    }

    /** What is taken, in terms of the queues and the table. */
    ghost predicate Takes(choice: Choice)
      requires forall q: Queue :: q in queues
      reads this`queues, this`rows, queues[WriteBacks]
    {
      var top, bottom, coherence := |queues[RxTop]|, |queues[RxBottom]|, |queues[Coherence]|;
      var retry, writeBacks := |queues[Retry]|, |queues[WriteBacks]|;
      var buffer := if kind == L3 then limits.l3QueueSize
                    else if kind == GpuL2 then limits.gpuQueueSize else limits.queueSize;
      var room := && Occupied(rows) < mshrSize && |queues[OrtList]| < maxCoal
                  && writeBacks < buffer && |queues[Pending]| < buffer
                  && retry < limits.queueSize && |queues[TxBottom]| < limits.queueSize;
      var ready := exists j :: 0 <= j < writeBacks && !queues[WriteBacks][j].flushPending;
      var gpu := kind in {GpuS, GpuV, GpuL2};
      && (choice == Head(Retry) <==> retry > 0)
      && (choice == Head(RxTop) <==> top > 0 && room && retry == 0 && bottom == 0 && coherence == 0)
      && (choice == Head(RxBottom) <==> bottom > 0 && retry == 0 && (if room then gpu ==> coherence == 0 else !ready))
      && (choice == Head(Coherence) <==>
            coherence > 0 && retry == 0 && (if room then gpu || bottom == 0 else !ready && bottom == 0))
      && (choice == ReadyWriteBack <==>
            ready && retry == 0 && (room ==> bottom == 0 && coherence == 0 && top == 0))
      && (choice == Stall <==>
            retry == 0 && bottom == 0 && coherence == 0 && !ready && (room ==> top == 0 && writeBacks > 0))
      && (choice == NoPacket <==> room && retry == 0 && bottom == 0 && coherence == 0 && top == 0 && writeBacks == 0)
    }

    lemma ChoiceExactly()
      requires Valid()
      ensures Takes(Schedule(StatusNow(), limits))
    {
      ScheduleExactly(StatusNow(), limits);
      StatusMeansFull(rows);
    }

    /** The next packet to work on, which stays in its queue; that queue is remembered. There is none
        on a stall; ok is false when the simulation is aborted. */
    method GetMessage() returns (message: Request?, ok: bool, ghost choice: Choice, ghost at: nat)
      requires Valid()
      modifies this`lastQueue
      ensures Takes(choice) && choice == Schedule(StatusNow(), limits)
      ensures ok <==> choice != NoPacket
      ensures choice.Head? ==> queues[choice.queue] != [] && message == queues[choice.queue][0] && lastQueue == choice.queue
      ensures choice == ReadyWriteBack ==>
                IsReadyWriteBack(queues[WriteBacks], at) && message == queues[WriteBacks][at] && lastQueue == WriteBacks
      ensures choice in {Stall, NoPacket} ==> message == null && lastQueue == old(lastQueue)
    {
      ChoiceExactly();
      message, ok, choice, at := PickMessage();
    }

    method PickMessage() returns (message: Request?, ok: bool, ghost choice: Choice, ghost at: nat)
      requires Valid()
      modifies this`lastQueue
      ensures choice == Schedule(StatusNow(), limits)
      ensures ok <==> choice != NoPacket
      ensures choice.Head? ==> queues[choice.queue] != [] && message == queues[choice.queue][0] && lastQueue == choice.queue
      ensures choice == ReadyWriteBack ==>
                IsReadyWriteBack(queues[WriteBacks], at) && message == queues[WriteBacks][at] && lastQueue == WriteBacks
      ensures choice in {Stall, NoPacket} ==> message == null && lastQueue == old(lastQueue)
    {
      var st, writeBack, k := ReadStatus();
      at := k;
      choice := Schedule(st, limits);
      message, ok := null, true;
      var canProcess := Admits(st);
      if st.retry > 0 {
        message, lastQueue := queues[Retry][0], Retry;
      } else if canProcess {
        if IsCpu(kind) && st.rxBottom > 0 {
          message, lastQueue := queues[RxBottom][0], RxBottom;
        } else if st.coherence > 0 {
          message, lastQueue := queues[Coherence][0], Coherence;
        } else if st.rxBottom > 0 {
          message, lastQueue := queues[RxBottom][0], RxBottom;
        } else if st.rxTop > 0 {
          message, lastQueue := queues[RxTop][0], RxTop;
        } else if st.writeBacks > 0 {
          if writeBack != null {
            message, lastQueue := writeBack, WriteBacks;
          }
        } else {
          ok := false;
        }
      } else if st.writeBacks > 0 && writeBack != null {
        message, lastQueue := writeBack, WriteBacks;
      } else if st.rxBottom > 0 {
        message, lastQueue := queues[RxBottom][0], RxBottom;
      } else if st.coherence > 0 {
        message, lastQueue := queues[Coherence][0], Coherence;
      }
    }
  }
}
