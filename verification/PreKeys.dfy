/**
  Devices, signed pre-keys and one-time pre-keys. Key-bundle transactions overlap: a taken one-time pre-key is deleted
  under a row lock that the other transactions skip, and it is handed out only when its transaction commits.
*/
module PreKeys {
  import opened Common

  type Tx = nat

  datatype Device = Device(user: Id, deviceId: Id)
  datatype OneTime = OneTime(device: Id, keyId: int)

  /**
    rows are the stored one-time pre-keys, locks the ones an open transaction has deleted; handouts lists what
    committed transactions gave out, gone what went with its device, uploaded everything ever stored.
  */
  datatype State = State(
    devices: map<Id, Device>,
    signed: map<(Id, int), bool>,
    rows: map<Id, OneTime>,
    locks: map<Id, Tx>,
    open: set<Tx>,
    handouts: seq<(Tx, Id)>,
    gone: set<Id>,
    uploaded: set<Id>)

  datatype Error = DuplicateDevice | MaxDevicesReached | DeviceNotFound | NoDevices | DuplicateKeyId | Blocked

  // ---- Statements ----

  function DevicesOf(s: State, u: Id): set<Id> {
    set d | d in s.devices && s.devices[d].user == u
  }

  function Register(s: State, row: Id, d: Device, maxDevices: nat): Result<State, Error> {
    if |DevicesOf(s, d.user)| >= maxDevices then Err(MaxDevicesReached)
    else if row in s.devices || exists e :: e in s.devices && s.devices[e] == d then Err(DuplicateDevice)
    else Ok(s.(devices := s.devices[row := d]))
  }

  /** Deactivate the device's signed pre-keys and insert the new one as active, or nothing on a duplicate key id. */
  function UploadSigned(s: State, device: Id, keyId: int): Result<State, Error> {
    if device !in s.devices then Err(DeviceNotFound)
    else if (device, keyId) in s.signed then Err(DuplicateKeyId)
    else Ok(s.(signed := (map k | k in s.signed :: s.signed[k] && k.0 != device)[(device, keyId) := true]))
  }

  predicate HasActiveSigned(s: State, device: Id) {
    exists k :: k in s.signed && k.0 == device && s.signed[k]
  }

  /** One COPY of a batch. A clash with a stored key fails it; a clash with a locked one would wait for that lock. */
  function UploadOneTime(s: State, device: Id, batch: map<Id, int>): Result<State, Error> {
    if device !in s.devices then Err(DeviceNotFound)
    else if (exists r :: r in batch && r in s.uploaded)
         || (exists r, q :: r in batch && q in batch && r != q && batch[r] == batch[q])
         || (exists r, q :: r in batch && q in s.rows && s.rows[q] == OneTime(device, batch[r])) then Err(DuplicateKeyId)
    else Ok(s.(rows := (map r | r in s.rows.Keys + batch.Keys :: if r in batch then OneTime(device, batch[r]) else s.rows[r]),
               uploaded := s.uploaded + batch.Keys))
  }

  /** The device's rows no open transaction holds. */
  function FreeOf(s: State, device: Id): set<Id> {
    set r | r in s.rows && r !in s.locks && s.rows[r].device == device
  }

  /** A row a Take may pick: free, and no other free row of the device has a lower key id. */
  ghost predicate IsLowestFree(s: State, device: Id, r: Id) {
    r in FreeOf(s, device) && forall q :: q in FreeOf(s, device) ==> s.rows[r].keyId <= s.rows[q].keyId
  }

  lemma {:induction false} LowestExists(rows: map<Id, OneTime>, free: set<Id>)
    requires free != {} && free <= rows.Keys
    ensures exists r :: r in free && forall q :: q in free ==> rows[r].keyId <= rows[q].keyId
  {
    var e := Member(free);
    if free != {e} {
      LowestExists(rows, free - {e});
      var m :| m in free - {e} && forall q :: q in free - {e} ==> rows[m].keyId <= rows[q].keyId;
      var low := if rows[m].keyId <= rows[e].keyId then m else e;
      assert low in free;
      assert forall q :: q in free ==> q == e || q in free - {e};
    }
  }

  /** Key ids are unique among a device's stored rows. */
  ghost predicate UniqueKeyIds(s: State) {
    forall r, q :: r in s.rows && q in s.rows && s.rows[r] == s.rows[q] ==> r == q
  }

  /** SELECT ... ORDER BY key_id LIMIT 1 FOR UPDATE SKIP LOCKED. */
  function LowestFree(s: State, device: Id): (found: Option<Id>)
    requires UniqueKeyIds(s)
    ensures found.None? <==> FreeOf(s, device) == {}
    ensures found.Some? ==> IsLowestFree(s, device, found.value)
  {
    if FreeOf(s, device) == {} then None else
    LowestExists(s.rows, FreeOf(s, device));
    var r :| r in FreeOf(s, device) && forall q :: q in FreeOf(s, device) ==> s.rows[r].keyId <= s.rows[q].keyId;
    Some(r)
  }

  /** DELETE of the selected row: locked until the transaction ends. */
  function Take(s: State, tx: Tx, device: Id): State
    requires UniqueKeyIds(s)
  {
    var found := LowestFree(s, device);
    if found.None? || tx !in s.open then s else s.(locks := s.locks[found.value := tx])
  }

  function HeldBy(s: State, tx: Tx): set<Id> {
    set r | r in s.locks && s.locks[r] == tx
  }

  /** The deletions become final and the taken keys leave in the bundle. */
  function Commit(s: State, tx: Tx, order: seq<Id>): State {
    if tx !in s.open then s else
    s.(rows := s.rows - HeldBy(s, tx),
       locks := s.locks - HeldBy(s, tx),
       open := s.open - {tx},
       handouts := s.handouts + seq(|order|, i requires 0 <= i < |order| => (tx, order[i])))
  }

  function Rollback(s: State, tx: Tx): State {
    if tx !in s.open then s else s.(locks := s.locks - HeldBy(s, tx), open := s.open - {tx})
  }

  /** Deleting a device cascades to its keys; it has to wait while a transaction holds a lock on one of them. */
  function Remove(s: State, device: Id): Result<State, Error> {
    if device !in s.devices then Err(DeviceNotFound)
    else if exists r :: r in s.locks && r in s.rows && s.rows[r].device == device then Err(Blocked)
    else
      var lost := set r | r in s.rows && s.rows[r].device == device;
      Ok(s.(devices := s.devices - {device},
            signed := (map k | k in s.signed && k.0 != device :: s.signed[k]),
            rows := s.rows - lost,
            gone := s.gone + lost))
  }

  // ---- Invariant ----

  ghost function HandedOut(s: State): set<Id> {
    set i | 0 <= i < |s.handouts| :: s.handouts[i].1
  }

  ghost function Free(s: State): set<Id> { s.rows.Keys - s.locks.Keys }

  /** Every uploaded key is in exactly one place, locks belong to open transactions, nothing was handed out twice. */
  ghost predicate Conserved(s: State) {
    && s.locks.Keys <= s.rows.Keys
    && (forall r :: r in s.locks ==> s.locks[r] in s.open)
    && s.uploaded == Free(s) + s.locks.Keys + HandedOut(s) + s.gone
    && s.rows.Keys !! HandedOut(s) && s.rows.Keys !! s.gone && HandedOut(s) !! s.gone
    && (forall i, j :: 0 <= i < j < |s.handouts| ==> s.handouts[i].1 != s.handouts[j].1)
  }

  ghost predicate WellFormed(s: State, maxDevices: nat) {
    && UniqueKeyIds(s)
    && (forall r :: r in s.rows ==> s.rows[r].device in s.devices)
    && (forall k :: k in s.signed ==> k.0 in s.devices)
    && (forall k, l :: k in s.signed && l in s.signed && k.0 == l.0 && s.signed[k] && s.signed[l] ==> k == l)
    && (forall d, e :: d in s.devices && e in s.devices && s.devices[d] == s.devices[e] ==> d == e)
    && (forall u :: |DevicesOf(s, u)| <= maxDevices)
  }

  ghost predicate Inv(s: State, maxDevices: nat) {
    WellFormed(s, maxDevices) && Conserved(s)
  }

  // ---- Runs ----

  datatype Step =
    | RegisterDevice(row: Id, device: Device)
    | UploadSignedPreKey(owner: Id, keyId: int)
    | UploadOneTimePreKeys(owner: Id, batch: map<Id, int>)
    | RemoveDevice(owner: Id)
    | Begin(tx: Tx)
    | TakeKey(tx: Tx, owner: Id)
    | CommitTx(tx: Tx, order: seq<Id>)
    | RollbackTx(tx: Tx)

  /** A transaction hands out its keys in some order, each once. */
  ghost predicate Lists(order: seq<Id>, rows: set<Id>) {
    (forall i, j :: 0 <= i < j < |order| ==> order[i] != order[j]) && (set i | 0 <= i < |order| :: order[i]) == rows
  }

  ghost function OrSame(r: Result<State, Error>, s: State): State {
    if r.Ok? then r.value else s
  }

  ghost function Next(s: State, maxDevices: nat, step: Step): State
    requires UniqueKeyIds(s)
  {
    match step
    case RegisterDevice(row, d) => OrSame(Register(s, row, d, maxDevices), s)
    case UploadSignedPreKey(d, k) => OrSame(UploadSigned(s, d, k), s)
    case UploadOneTimePreKeys(d, b) => OrSame(UploadOneTime(s, d, b), s)
    case RemoveDevice(d) => OrSame(Remove(s, d), s)
    case Begin(tx) => s.(open := s.open + {tx})
    case TakeKey(tx, d) => Take(s, tx, d)
    case CommitTx(tx, order) => if Lists(order, HeldBy(s, tx)) then Commit(s, tx, order) else s
    case RollbackTx(tx) => Rollback(s, tx)
  }

  lemma SameKeysConserved(s: State, s': State)
    requires Conserved(s)
    requires s'.rows == s.rows && s'.locks == s.locks && s.open <= s'.open
    requires s'.handouts == s.handouts && s'.gone == s.gone && s'.uploaded == s.uploaded
    ensures Conserved(s')
  {
    assert HandedOut(s') == HandedOut(s);
  }

  lemma SameTablesWellFormed(s: State, s': State, maxDevices: nat)
    requires WellFormed(s, maxDevices)
    requires s'.devices == s.devices && s'.signed == s.signed
    requires s'.rows.Keys <= s.rows.Keys && forall r :: r in s'.rows ==> s'.rows[r] == s.rows[r]
    ensures WellFormed(s', maxDevices)
  {
    forall u ensures DevicesOf(s', u) == DevicesOf(s, u) {}
  }

  lemma RegisterAddsOne(s: State, row: Id, d: Device, u: Id)
    requires row !in s.devices
    ensures DevicesOf(s.(devices := s.devices[row := d]), u)
            == if u == d.user then DevicesOf(s, u) + {row} else DevicesOf(s, u)
    ensures row !in DevicesOf(s, u)
  {
  }

  lemma RegisterKeeps(s: State, maxDevices: nat, row: Id, d: Device)
    requires Inv(s, maxDevices) && Register(s, row, d, maxDevices).Ok?
    ensures Inv(Register(s, row, d, maxDevices).value, maxDevices)
  {
    var s' := Register(s, row, d, maxDevices).value;
    forall u ensures |DevicesOf(s', u)| <= maxDevices {
      RegisterAddsOne(s, row, d, u);
    }
    SameKeysConserved(s, s');
  }

  lemma UploadSignedKeeps(s: State, maxDevices: nat, d: Id, keyId: int)
    requires Inv(s, maxDevices) && UploadSigned(s, d, keyId).Ok?
    ensures Inv(UploadSigned(s, d, keyId).value, maxDevices)
  {
    var s' := UploadSigned(s, d, keyId).value;
    forall u ensures DevicesOf(s', u) == DevicesOf(s, u) {}
    SameKeysConserved(s, s');
  }

  lemma UploadOneTimeKeeps(s: State, maxDevices: nat, d: Id, batch: map<Id, int>)
    requires Inv(s, maxDevices) && UploadOneTime(s, d, batch).Ok?
    ensures Inv(UploadOneTime(s, d, batch).value, maxDevices)
  {
    var s' := UploadOneTime(s, d, batch).value;
    forall u ensures DevicesOf(s', u) == DevicesOf(s, u) {}
    assert HandedOut(s') == HandedOut(s);
    assert Free(s') == Free(s) + batch.Keys;
  }

  lemma RemoveKeeps(s: State, maxDevices: nat, d: Id)
    requires Inv(s, maxDevices) && Remove(s, d).Ok?
    ensures Inv(Remove(s, d).value, maxDevices)
  {
    var s' := Remove(s, d).value;
    forall u ensures |DevicesOf(s', u)| <= maxDevices {
      SubsetIsSmaller(DevicesOf(s', u), DevicesOf(s, u));
    }
    assert HandedOut(s') == HandedOut(s);
  }

  lemma {:induction false} SubsetIsSmaller(a: set<Id>, b: set<Id>)
    requires a <= b
    ensures |a| <= |b|
  {
    if a != {} {
      var e := Member(a);
      SubsetIsSmaller(a - {e}, b - {e});
    }
  }

  lemma CommitHandsOut(s: State, tx: Tx, order: seq<Id>)
    requires tx in s.open && Lists(order, HeldBy(s, tx))
    ensures HandedOut(Commit(s, tx, order)) == HandedOut(s) + HeldBy(s, tx)
  {
    var s' := Commit(s, tx, order);
    var n := |s.handouts|;
    forall i | 0 <= i < |s'.handouts| ensures s'.handouts[i] == if i < n then s.handouts[i] else (tx, order[i - n]) {}
    forall r | r in HeldBy(s, tx) ensures r in HandedOut(s') {
      var i :| 0 <= i < |order| && order[i] == r;
      assert s'.handouts[n + i].1 == r;
    }
    forall r | r in HandedOut(s) ensures r in HandedOut(s') {
      var i :| 0 <= i < n && s.handouts[i].1 == r;
      assert s'.handouts[i].1 == r;
    }
    forall r | r in HandedOut(s') ensures r in HandedOut(s) + HeldBy(s, tx) {
      var i :| 0 <= i < |s'.handouts| && s'.handouts[i].1 == r;
      if i >= n {
        assert order[i - n] == r;
      }
    }
  }

  lemma CommitNeverRepeats(s: State, tx: Tx, order: seq<Id>)
    requires Conserved(s) && tx in s.open && Lists(order, HeldBy(s, tx))
    ensures var hs := Commit(s, tx, order).handouts;
            forall i, j :: 0 <= i < j < |hs| ==> hs[i].1 != hs[j].1
  {
    var hs, n := Commit(s, tx, order).handouts, |s.handouts|;
    forall i, j | 0 <= i < j < |hs| ensures hs[i].1 != hs[j].1 {
      if i < n <= j {
        assert s.handouts[i].1 in HandedOut(s);
        assert order[j - n] in HeldBy(s, tx);
      }
    }
  }

  lemma CommitKeeps(s: State, maxDevices: nat, tx: Tx, order: seq<Id>)
    requires Inv(s, maxDevices) && Lists(order, HeldBy(s, tx))
    ensures Inv(Commit(s, tx, order), maxDevices)
  {
    if tx in s.open {
      CommitHandsOut(s, tx, order);
      CommitNeverRepeats(s, tx, order);
      SameTablesWellFormed(s, Commit(s, tx, order), maxDevices);
    }
  }

  lemma TakeKeeps(s: State, maxDevices: nat, tx: Tx, device: Id)
    requires Inv(s, maxDevices)
    ensures Inv(Take(s, tx, device), maxDevices)
  {
    var s' := Take(s, tx, device);
    SameTablesWellFormed(s, s', maxDevices);
    assert HandedOut(s') == HandedOut(s);
    assert Free(s') + s'.locks.Keys == Free(s) + s.locks.Keys;
  }

  lemma RollbackConserves(s: State, tx: Tx)
    requires Conserved(s)
    ensures Conserved(Rollback(s, tx))
  {
    var s' := Rollback(s, tx);
    assert HandedOut(s') == HandedOut(s);
    assert Free(s') + s'.locks.Keys == Free(s) + s.locks.Keys;
  }

  lemma RollbackKeeps(s: State, maxDevices: nat, tx: Tx)
    requires Inv(s, maxDevices)
    ensures Inv(Rollback(s, tx), maxDevices)
  {
    RollbackConserves(s, tx);
    SameTablesWellFormed(s, Rollback(s, tx), maxDevices);
  }

  lemma NextKeepsInv(s: State, maxDevices: nat, step: Step)
    requires Inv(s, maxDevices)
    ensures Inv(Next(s, maxDevices, step), maxDevices)
  {
    match step
    case RegisterDevice(row, d) => if Register(s, row, d, maxDevices).Ok? { RegisterKeeps(s, maxDevices, row, d); }
    case UploadSignedPreKey(d, k) => if UploadSigned(s, d, k).Ok? { UploadSignedKeeps(s, maxDevices, d, k); }
    case UploadOneTimePreKeys(d, b) => if UploadOneTime(s, d, b).Ok? { UploadOneTimeKeeps(s, maxDevices, d, b); }
    case RemoveDevice(d) => if Remove(s, d).Ok? { RemoveKeeps(s, maxDevices, d); }
    case CommitTx(tx, order) => if Lists(order, HeldBy(s, tx)) { CommitKeeps(s, maxDevices, tx, order); }
    case Begin(tx) =>
      SameKeysConserved(s, Next(s, maxDevices, step));
      SameTablesWellFormed(s, Next(s, maxDevices, step), maxDevices);
    case TakeKey(tx, d) => TakeKeeps(s, maxDevices, tx, d);
    case RollbackTx(tx) => RollbackKeeps(s, maxDevices, tx);
  }

  /** The steps of a run are the statements. */
  lemma StepsAreStatements(s: State, maxDevices: nat, tx: Tx, d: Id, order: seq<Id>)
    requires UniqueKeyIds(s)
    ensures Next(s, maxDevices, Begin(tx)) == s.(open := s.open + {tx})
    ensures Next(s, maxDevices, TakeKey(tx, d)) == Take(s, tx, d)
    ensures Lists(order, HeldBy(s, tx)) ==> Next(s, maxDevices, CommitTx(tx, order)) == Commit(s, tx, order)
    ensures Next(s, maxDevices, RollbackTx(tx)) == Rollback(s, tx)
    ensures Remove(s, d).Ok? ==> Next(s, maxDevices, RemoveDevice(d)) == Remove(s, d).value
  {
  }

  ghost function Run(s: State, maxDevices: nat, steps: seq<Step>): State
    requires Inv(s, maxDevices)
    decreases |steps|
  {
    if steps == [] then s else
    NextKeepsInv(s, maxDevices, steps[0]);
    Run(Next(s, maxDevices, steps[0]), maxDevices, steps[1..])
  }

  const EMPTY := State(map[], map[], map[], map[], {}, [], {}, {})

  /** In how many of the four places a key is: free, locked by an open transaction, handed out, gone. */
  ghost function Places(s: State, r: Id): nat {
    (if r in Free(s) then 1 else 0)
    + (if r in s.locks && s.locks[r] in s.open then 1 else 0)
    + (if r in HandedOut(s) then 1 else 0)
    + (if r in s.gone then 1 else 0)
  }

  lemma NextKeepsHandouts(s: State, maxDevices: nat, step: Step)
    requires Inv(s, maxDevices)
    ensures s.handouts <= Next(s, maxDevices, step).handouts
  {
  }

  lemma {:induction false} RunKeepsInv(s: State, maxDevices: nat, steps: seq<Step>)
    requires Inv(s, maxDevices)
    ensures Inv(Run(s, maxDevices, steps), maxDevices) && s.handouts <= Run(s, maxDevices, steps).handouts
    decreases |steps|
  {
    if steps != [] {
      NextKeepsInv(s, maxDevices, steps[0]);
      NextKeepsHandouts(s, maxDevices, steps[0]);
      RunKeepsInv(Next(s, maxDevices, steps[0]), maxDevices, steps[1..]);
    }
  }

  /**
    Overlapping transactions, uploads, device removals and rollbacks in any order: every uploaded key is in exactly
    one place, nothing else is anywhere, and what was handed out stays handed out, each key at most once.
  */
  lemma EveryKeyIsInOnePlace(s: State, maxDevices: nat, steps: seq<Step>)
    requires Inv(s, maxDevices)
    ensures var s' := Run(s, maxDevices, steps);
            && Inv(s', maxDevices)
            && (forall r :: r in s'.uploaded ==> Places(s', r) == 1)
            && (forall r :: r !in s'.uploaded ==> Places(s', r) == 0)
            && s.handouts <= s'.handouts
            && (forall i, j :: 0 <= i < j < |s'.handouts| ==> s'.handouts[i].1 != s'.handouts[j].1)
  {
    RunKeepsInv(s, maxDevices, steps);
    PlacesOfKeys(Run(s, maxDevices, steps));
  }

  lemma PlacesOfKeys(s: State)
    requires Conserved(s)
    ensures forall r :: r in s.uploaded ==> Places(s, r) == 1
    ensures forall r :: r !in s.uploaded ==> Places(s, r) == 0
  {
  }

  /** So it is in every run from the empty store. */
  lemma KeysFromEmptyStore(maxDevices: nat, steps: seq<Step>)
    ensures Inv(EMPTY, maxDevices)
    ensures var s' := Run(EMPTY, maxDevices, steps);
            && (forall r :: r in s'.uploaded ==> Places(s', r) == 1)
            && (forall r :: r !in s'.uploaded ==> Places(s', r) == 0)
            && (forall i, j :: 0 <= i < j < |s'.handouts| ==> s'.handouts[i].1 != s'.handouts[j].1)
  {
    EmptyStoreIsConsistent(maxDevices);
    EveryKeyIsInOnePlace(EMPTY, maxDevices, steps);
  }

  lemma EmptyStoreIsConsistent(maxDevices: nat)
    ensures Inv(EMPTY, maxDevices)
  {
    forall u ensures |DevicesOf(EMPTY, u)| <= maxDevices {
      assert DevicesOf(EMPTY, u) == {};
    }
  }

  /** A rollback frees exactly what the transaction took; a commit hands out exactly that, and nothing else moves. */
  lemma EndOfTransaction(s: State, maxDevices: nat, tx: Tx, order: seq<Id>)
    requires Inv(s, maxDevices) && tx in s.open && Lists(order, HeldBy(s, tx))
    ensures Free(Rollback(s, tx)) == Free(s) + HeldBy(s, tx) && HandedOut(Rollback(s, tx)) == HandedOut(s)
    ensures Free(Commit(s, tx, order)) == Free(s) && HandedOut(Commit(s, tx, order)) == HandedOut(s) + HeldBy(s, tx)
    ensures forall other :: other != tx ==>
              HeldBy(Rollback(s, tx), other) == HeldBy(s, other) && HeldBy(Commit(s, tx, order), other) == HeldBy(s, other)
  {
    CommitHandsOut(s, tx, order);
  }

  // ---- Bundles ----

  datatype Bundle = Bundle(device: Id, oneTime: Option<Id>)

  /** The device loop: devices without an active signed pre-key are skipped, the others give one free key if any. */
  function Fetched(s: State, tx: Tx, devices: seq<Id>): (State, seq<Bundle>)
    requires UniqueKeyIds(s)
    decreases |devices|
  {
    if devices == [] then (s, []) else
    var d := devices[0];
    if !HasActiveSigned(s, d) then Fetched(s, tx, devices[1..])
    else
      var rest := Fetched(Take(s, tx, d), tx, devices[1..]);
      (rest.0, [Bundle(d, LowestFree(s, d))] + rest.1)
  }

  predicate Distinct(xs: seq<Id>) {
    forall i, j :: 0 <= i < j < |xs| ==> xs[i] != xs[j]
  }

  function Ready(s: State, devices: seq<Id>): seq<Id>
    decreases |devices|
  {
    if devices == [] then []
    else if HasActiveSigned(s, devices[0]) then [devices[0]] + Ready(s, devices[1..])
    else Ready(s, devices[1..])
  }

  function Taken(bundles: seq<Bundle>): set<Id> {
    set i | 0 <= i < |bundles| && bundles[i].oneTime.Some? :: bundles[i].oneTime.value
  }

  lemma TakeLeavesOtherDevices(s: State, tx: Tx, d: Id, e: Id)
    requires UniqueKeyIds(s) && d != e
    ensures LowestFree(Take(s, tx, d), e) == LowestFree(s, e)
  {
    assert FreeOf(Take(s, tx, d), e) == FreeOf(s, e);
  }

  /** Only locks change, and a fetch never lets go of one. */
  lemma {:induction false} FetchedChangesLocksOnly(s: State, tx: Tx, devices: seq<Id>)
    requires UniqueKeyIds(s) && tx in s.open
    ensures var s' := Fetched(s, tx, devices).0;
            s' == s.(locks := s'.locks) && (forall r :: r in s.locks ==> r in s'.locks && s'.locks[r] == s.locks[r])
    decreases |devices|
  {
    if devices != [] {
      var s1 := if HasActiveSigned(s, devices[0]) then Take(s, tx, devices[0]) else s;
      FetchedChangesLocksOnly(s1, tx, devices[1..]);
    }
  }

  /** The locks a fetch adds are the rows of its bundles, all held by its transaction. */
  lemma {:induction false} FetchedLocksBundle(s: State, tx: Tx, devices: seq<Id>)
    requires UniqueKeyIds(s) && tx in s.open
    ensures var (s', bundles) := Fetched(s, tx, devices);
            && s'.locks.Keys == s.locks.Keys + Taken(bundles)
            && (forall r :: r in s'.locks && r !in s.locks ==> s'.locks[r] == tx)
    decreases |devices|
  {
    if devices != [] {
      var d := devices[0];
      if !HasActiveSigned(s, d) {
        FetchedLocksBundle(s, tx, devices[1..]);
      } else {
        var s1 := Take(s, tx, d);
        FetchedLocksBundle(s1, tx, devices[1..]);
        FetchedChangesLocksOnly(s1, tx, devices[1..]);
        var tail := Fetched(s1, tx, devices[1..]).1;
        TakenCons(Bundle(d, LowestFree(s, d)), tail);
      }
    }
  }

  lemma TakenCons(b: Bundle, tail: seq<Bundle>)
    ensures Taken([b] + tail) == (match b.oneTime case Some(k) => {k} case None => {}) + Taken(tail)
  {
    var all := [b] + tail;
    forall i | 0 <= i < |tail| ensures all[i + 1] == tail[i] {}
    forall k | k in Taken(tail) ensures k in Taken(all) {
      var i :| 0 <= i < |tail| && tail[i].oneTime.Some? && tail[i].oneTime.value == k;
      assert all[i + 1].oneTime == Some(k);
    }
    if b.oneTime.Some? {
      assert all[0].oneTime == b.oneTime;
    }
  }

  lemma {:induction false} FetchedServesReady(s: State, tx: Tx, devices: seq<Id>)
    requires UniqueKeyIds(s) && tx in s.open && Distinct(devices)
    ensures var bundles := Fetched(s, tx, devices).1;
            && |bundles| == |Ready(s, devices)|
            && (forall i :: 0 <= i < |bundles| ==>
                  bundles[i].device == Ready(s, devices)[i] && bundles[i].oneTime == LowestFree(s, bundles[i].device))
    decreases |devices|
  {
    if devices != [] {
      var d, rest := devices[0], devices[1..];
      if !HasActiveSigned(s, d) {
        FetchedServesReady(s, tx, rest);
      } else {
        var s1 := Take(s, tx, d);
        FetchedServesReady(s1, tx, rest);
        SameSignedReady(s, s1, rest);
        var bundles, tail := Fetched(s, tx, devices).1, Fetched(s1, tx, rest).1;
        forall i | 1 <= i < |bundles|
          ensures bundles[i].device == Ready(s, devices)[i] && bundles[i].oneTime == LowestFree(s, bundles[i].device)
        {
          assert bundles[i] == tail[i - 1];
          ReadyIsFrom(s, rest, i - 1);
          TakeLeavesOtherDevices(s, tx, d, bundles[i].device);
        }
      }
    }
  }

  /**
    A bundle lists exactly the devices with an active signed pre-key, in order; each comes with the lowest key id that
    was free for it when the fetch began, and with none only if none was free. Those rows, and no others, are now
    locked by the transaction.
  */
  lemma BundleIsExact(s: State, tx: Tx, devices: seq<Id>)
    requires UniqueKeyIds(s) && tx in s.open && Distinct(devices)
    ensures var (s', bundles) := Fetched(s, tx, devices);
            && |bundles| == |Ready(s, devices)|
            && (forall i :: 0 <= i < |bundles| ==>
                  bundles[i].device == Ready(s, devices)[i] && bundles[i].oneTime == LowestFree(s, bundles[i].device))
            && s' == s.(locks := s'.locks)
            && s'.locks.Keys == s.locks.Keys + Taken(bundles)
            && (forall r :: r in s'.locks ==> s'.locks[r] == if r in s.locks then s.locks[r] else tx)
  {
    FetchedServesReady(s, tx, devices);
    FetchedChangesLocksOnly(s, tx, devices);
    FetchedLocksBundle(s, tx, devices);
  }

  lemma {:induction false} SameSignedReady(s: State, s1: State, devices: seq<Id>)
    requires s1.signed == s.signed
    ensures Ready(s1, devices) == Ready(s, devices)
    decreases |devices|
  {
    if devices != [] {
      SameSignedReady(s, s1, devices[1..]);
    }
  }

  lemma {:induction false} ReadyIsFrom(s: State, devices: seq<Id>, i: nat)
    requires i < |Ready(s, devices)|
    ensures Ready(s, devices)[i] in devices
    decreases |devices|
  {
    if HasActiveSigned(s, devices[0]) {
      if i > 0 {
        ReadyIsFrom(s, devices[1..], i - 1);
      }
    } else {
      ReadyIsFrom(s, devices[1..], i);
    }
  }

  /** The one-time pre-keys of a bundle, in device order. */
  function KeysOf(bundles: seq<Bundle>): seq<Id> {
    if bundles == [] then []
    else (match bundles[0].oneTime case Some(k) => [k] case None => []) + KeysOf(bundles[1..])
  }

  lemma KeysOfCons(b: Bundle, tail: seq<Bundle>)
    ensures KeysOf([b] + tail) == (match b.oneTime case Some(k) => [k] case None => []) + KeysOf(tail)
  {
    assert ([b] + tail)[1..] == tail;
  }

  lemma {:induction false} FetchedKeysAreNew(s: State, tx: Tx, devices: seq<Id>)
    requires UniqueKeyIds(s) && tx in s.open
    ensures var (s', bundles) := Fetched(s, tx, devices);
            Lists(KeysOf(bundles), s'.locks.Keys - s.locks.Keys)
    decreases |devices|
  {
    if devices != [] {
      var d := devices[0];
      if !HasActiveSigned(s, d) {
        FetchedKeysAreNew(s, tx, devices[1..]);
      } else {
        var s1 := Take(s, tx, d);
        FetchedKeysAreNew(s1, tx, devices[1..]);
        FetchedChangesLocksOnly(s1, tx, devices[1..]);
        var (s', tail) := Fetched(s1, tx, devices[1..]);
        var key := LowestFree(s, d);
        KeysOfCons(Bundle(d, key), tail);
        if key.Some? {
          ListsCons(key.value, KeysOf(tail), s'.locks.Keys - s1.locks.Keys);
          assert s'.locks.Keys - s.locks.Keys == {key.value} + (s'.locks.Keys - s1.locks.Keys);
        } else {
          assert [] + KeysOf(tail) == KeysOf(tail);
        }
      }
    }
  }

  lemma ListsCons(k: Id, order: seq<Id>, rows: set<Id>)
    requires Lists(order, rows) && k !in rows
    ensures Lists([k] + order, {k} + rows)
  {
    var all := [k] + order;
    forall i | 0 <= i < |order| ensures all[i + 1] == order[i] && order[i] in rows {}
    forall r | r in rows ensures r in (set i | 0 <= i < |all| :: all[i]) {
      var i :| 0 <= i < |order| && order[i] == r;
      assert all[i + 1] == r;
    }
    assert all[0] == k;
  }

  /** A fetch in a new transaction followed by its commit hands out exactly the keys in the bundle. */
  lemma CommittedBundleIsHandedOut(s: State, maxDevices: nat, tx: Tx, devices: seq<Id>)
    requires Inv(s, maxDevices) && tx in s.open && HeldBy(s, tx) == {}
    ensures var (s', bundles) := Fetched(s, tx, devices);
            && Lists(KeysOf(bundles), HeldBy(s', tx))
            && HandedOut(Commit(s', tx, KeysOf(bundles))) == HandedOut(s) + Taken(bundles)
  {
    var (s', bundles) := Fetched(s, tx, devices);
    FetchedKeysAreNew(s, tx, devices);
    FetchedChangesLocksOnly(s, tx, devices);
    FetchedLocksBundle(s, tx, devices);
    assert forall r :: r in s.locks ==> (s.locks[r] == tx <==> r in HeldBy(s, tx));
    assert HeldBy(s', tx) == s'.locks.Keys - s.locks.Keys;
    CommitHandsOut(s', tx, KeysOf(bundles));
    TakenWereFree(s, tx, devices);
    assert HeldBy(s', tx) == Taken(bundles);
    assert HandedOut(s') == HandedOut(s);
  }

  /** What a fetch takes was not locked before. */
  lemma {:induction false} TakenWereFree(s: State, tx: Tx, devices: seq<Id>)
    requires UniqueKeyIds(s) && tx in s.open
    ensures Taken(Fetched(s, tx, devices).1) !! s.locks.Keys
    decreases |devices|
  {
    if devices != [] {
      var d := devices[0];
      if !HasActiveSigned(s, d) {
        TakenWereFree(s, tx, devices[1..]);
      } else {
        var s1 := Take(s, tx, d);
        TakenWereFree(s1, tx, devices[1..]);
        TakenCons(Bundle(d, LowestFree(s, d)), Fetched(s1, tx, devices[1..]).1);
      }
    }
  }

  function Begun(s: State, tx: Tx): State { s.(open := s.open + {tx}) }

  lemma BeginKeeps(s: State, maxDevices: nat, tx: Tx)
    requires Inv(s, maxDevices) && tx !in s.open
    ensures Inv(Begun(s, tx), maxDevices) && HeldBy(Begun(s, tx), tx) == {}
  {
    SameKeysConserved(s, Begun(s, tx));
    SameTablesWellFormed(s, Begun(s, tx), maxDevices);
  }

  lemma FetchTakes(s: State, tx: Tx, devices: seq<Id>)
    requires UniqueKeyIds(s) && tx in s.open && HeldBy(s, tx) == {}
    ensures var (s1, bundles) := Fetched(s, tx, devices);
            && s1 == s.(locks := s1.locks)
            && HeldBy(s1, tx) == Taken(bundles)
            && s1.locks - Taken(bundles) == s.locks
  {
    FetchedChangesLocksOnly(s, tx, devices);
    FetchedLocksBundle(s, tx, devices);
    TakenWereFree(s, tx, devices);
    assert forall r :: r in s.locks ==> (s.locks[r] == tx <==> r in HeldBy(s, tx));
  }

  lemma CommitGivesUp(s: State, s1: State, tx: Tx, order: seq<Id>, taken: set<Id>)
    requires tx in s1.open && HeldBy(s1, tx) == taken && s1 == s.(locks := s1.locks) && s1.locks - taken == s.locks
    ensures var s' := Commit(s1, tx, order);
            s'.rows == s.rows - taken && s'.locks == s.locks && s'.open == s.open - {tx}
  {
  }

  /** Begin, fetch and commit without anything in between. */
  lemma UndisturbedFetch(s: State, maxDevices: nat, tx: Tx, devices: seq<Id>)
    requires Inv(s, maxDevices) && tx !in s.open
    ensures UniqueKeyIds(Begun(s, tx))
    ensures var (s1, bundles) := Fetched(Begun(s, tx), tx, devices);
            var s' := Commit(s1, tx, KeysOf(bundles));
            && Inv(s', maxDevices) && HandedOut(s') == HandedOut(s) + Taken(bundles)
            && s'.rows == s.rows - Taken(bundles) && s'.locks == s.locks && s'.open == s.open
  {
    var s0 := Begun(s, tx);
    BeginKeeps(s, maxDevices, tx);
    var (s1, bundles) := Fetched(s0, tx, devices);
    CommittedBundleIsHandedOut(s0, maxDevices, tx, devices);
    FetchKeeps(s0, maxDevices, tx, devices);
    CommitKeeps(s1, maxDevices, tx, KeysOf(bundles));
    FetchTakes(s0, tx, devices);
    CommitGivesUp(s0, s1, tx, KeysOf(bundles), Taken(bundles));
    assert HandedOut(s0) == HandedOut(s);
  }

  lemma {:induction false} FetchKeeps(s: State, maxDevices: nat, tx: Tx, devices: seq<Id>)
    requires Inv(s, maxDevices) && tx in s.open
    ensures Inv(Fetched(s, tx, devices).0, maxDevices)
    decreases |devices|
  {
    if devices != [] {
      if !HasActiveSigned(s, devices[0]) {
        FetchKeeps(s, maxDevices, tx, devices[1..]);
      } else {
        TakeKeeps(s, maxDevices, tx, devices[0]);
        FetchKeeps(Take(s, tx, devices[0]), maxDevices, tx, devices[1..]);
      }
    }
  }

  // ---- What the statements store ----

  /** A registration goes through for a new row and device below the user's limit, and adds just that row. */
  lemma RegisterIsExact(s: State, row: Id, d: Device, maxDevices: nat)
    ensures var r := Register(s, row, d, maxDevices);
            && (r.Ok? <==> |set e | e in s.devices && s.devices[e].user == d.user| < maxDevices
                           && row !in s.devices && d !in s.devices.Values)
            && (r.Ok? ==> r.value == s.(devices := s.devices[row := d]))
  {
    assert DevicesOf(s, d.user) == set e | e in s.devices && s.devices[e].user == d.user;
  }

  /** An upload adds the key as the device's only active one; other devices' keys stay as they are. */
  lemma UploadSignedIsExact(s: State, d: Id, keyId: int)
    ensures var r := UploadSigned(s, d, keyId);
            && (r.Ok? <==> d in s.devices && (d, keyId) !in s.signed)
            && (r.Ok? ==>
                  && r.value == s.(signed := r.value.signed)
                  && r.value.signed.Keys == s.signed.Keys + {(d, keyId)}
                  && (forall k :: k in r.value.signed ==>
                        (r.value.signed[k] <==> k == (d, keyId) || (k.0 != d && k in s.signed && s.signed[k]))))
  {
  }

  /** A batch goes through as a whole: new rows, key ids the device has not stored, none of them twice. */
  lemma UploadOneTimeIsExact(s: State, d: Id, batch: map<Id, int>)
    requires s.rows.Keys <= s.uploaded
    ensures var r := UploadOneTime(s, d, batch);
            && (r.Ok? <==>
                  && d in s.devices && batch.Keys !! s.uploaded
                  && (forall p, q :: p in batch && q in batch && batch[p] == batch[q] ==> p == q)
                  && (forall p :: p in batch ==> OneTime(d, batch[p]) !in s.rows.Values))
            && (r.Ok? ==>
                  && r.value == s.(rows := r.value.rows, uploaded := s.uploaded + batch.Keys)
                  && r.value.rows.Keys == s.rows.Keys + batch.Keys
                  && (forall p :: p in batch ==> r.value.rows[p] == OneTime(d, batch[p]))
                  && (forall p :: p in s.rows ==> r.value.rows[p] == s.rows[p]))
  {
    forall p | p in batch ensures OneTime(d, batch[p]) in s.rows.Values <==> exists q :: q in s.rows && s.rows[q] == OneTime(d, batch[p]) {}
  }

  /** A removal waits for locks on the device's keys, and takes exactly the device and its keys. */
  lemma RemoveIsExact(s: State, d: Id)
    ensures var r := Remove(s, d);
            && (r.Ok? <==> d in s.devices && forall k :: k in s.locks && k in s.rows ==> s.rows[k].device != d)
            && (r.Ok? ==>
                  && r.value == s.(devices := s.devices - {d}, signed := r.value.signed, rows := r.value.rows, gone := r.value.gone)
                  && (forall k :: k in r.value.signed <==> k in s.signed && k.0 != d)
                  && (forall k :: k in r.value.signed ==> r.value.signed[k] == s.signed[k])
                  && (forall k :: k in r.value.rows <==> k in s.rows && s.rows[k].device != d)
                  && (forall k :: k in r.value.rows ==> r.value.rows[k] == s.rows[k])
                  && (forall k :: k in r.value.gone <==> k in s.gone || (k in s.rows && s.rows[k].device == d)))
  {
  }

  /** The device has an active signed pre-key. */
  ghost predicate Active(s: State, d: Id) {
    exists k :: k in s.signed && k.0 == d && s.signed[k]
  }

  lemma {:induction false} ReadyIsActive(s: State, devices: seq<Id>, d: Id)
    ensures d in Ready(s, devices) <==> d in devices && Active(s, d)
    decreases |devices|
  {
    if devices != [] {
      ReadyIsActive(s, devices[1..], d);
      assert HasActiveSigned(s, devices[0]) <==> Active(s, devices[0]);
    }
  }

  /** The key is an unlocked one of the device with the lowest id; there is none only if all are locked or gone. */
  ghost predicate IsLowestUnlocked(s: State, d: Id, key: Option<Id>) {
    match key
    case Some(r) =>
      && r in s.rows && r !in s.locks && s.rows[r].device == d
      && (forall q :: q in s.rows && q !in s.locks && s.rows[q].device == d ==> s.rows[r].keyId <= s.rows[q].keyId)
    case None => forall q :: q in s.rows && s.rows[q].device == d ==> q in s.locks
  }

  /**
    Whom a bundle serves, and with what: exactly the listed devices with an active signed pre-key, each with the lowest
    unlocked key it had.
  */
  lemma BundleServesActiveDevices(s: State, tx: Tx, devices: seq<Id>, d: Id)
    requires UniqueKeyIds(s) && tx in s.open && Distinct(devices)
    ensures var bundles := Fetched(s, tx, devices).1;
            && ((exists i :: 0 <= i < |bundles| && bundles[i].device == d) <==> d in devices && Active(s, d))
            && (forall i :: 0 <= i < |bundles| ==> IsLowestUnlocked(s, bundles[i].device, bundles[i].oneTime))
  {
    var bundles := Fetched(s, tx, devices).1;
    BundleIsExact(s, tx, devices);
    ReadyIsActive(s, devices, d);
    if d in devices && Active(s, d) {
      var i :| 0 <= i < |Ready(s, devices)| && Ready(s, devices)[i] == d;
      assert bundles[i].device == d;
    }
    forall i | 0 <= i < |bundles| ensures IsLowestUnlocked(s, bundles[i].device, bundles[i].oneTime) {
      LowestIsUnlocked(s, bundles[i].device);
    }
  }

  lemma LowestIsUnlocked(s: State, d: Id)
    requires UniqueKeyIds(s)
    ensures IsLowestUnlocked(s, d, LowestFree(s, d))
  {
    assert forall r :: r in FreeOf(s, d) <==> r in s.rows && r !in s.locks && s.rows[r].device == d;
  }

  /** An upload puts its device into the next bundle and leaves every other device in or out as it was. */
  lemma UploadServesDevice(s: State, tx: Tx, devices: seq<Id>, d: Id, keyId: int, e: Id)
    requires UploadSigned(s, d, keyId).Ok? && UniqueKeyIds(s) && tx in s.open && Distinct(devices)
    ensures var s' := UploadSigned(s, d, keyId).value;
            && UniqueKeyIds(s')
            && var bundles := Fetched(s', tx, devices).1;
               (exists i :: 0 <= i < |bundles| && bundles[i].device == e) <==> e in devices && (e == d || Active(s, e))
  {
    var s' := UploadSigned(s, d, keyId).value;
    UploadSignedIsExact(s, d, keyId);
    BundleServesActiveDevices(s', tx, devices, e);
    assert s'.signed[(d, keyId)];
    if e != d {
      forall k: (Id, int) | k.0 == e ensures (k in s'.signed && s'.signed[k]) <==> (k in s.signed && s.signed[k]) {}
    }
  }

  class PreKeyStore {
    var state: State

    constructor ()
      ensures state == EMPTY
    {
      state := EMPTY;
    }

    method TakeOneTimePreKey(tx: Tx, device: Id) returns (key: Option<Id>)
      requires UniqueKeyIds(state) && tx in state.open
      modifies this
      ensures key == LowestFree(old(state), device)
      ensures state == Take(old(state), tx, device)
    {
      key := LowestFree(state, device);
      if key.Some? {
        state := state.(locks := state.locks[key.value := tx]);
      }
    }

    /** The device loop of a key-bundle transaction. */
    method FetchDevices(tx: Tx, devices: seq<Id>) returns (bundles: seq<Bundle>)
      requires UniqueKeyIds(state) && tx in state.open
      modifies this
      ensures state == Fetched(old(state), tx, devices).0
      ensures bundles == Fetched(old(state), tx, devices).1
    {
      bundles := [];
      assert devices[0..] == devices && forall bs: seq<Bundle> :: [] + bs == bs;
      for i := 0 to |devices|
        invariant UniqueKeyIds(state) && tx in state.open
        invariant Fetched(old(state), tx, devices).0 == Fetched(state, tx, devices[i..]).0
        invariant Fetched(old(state), tx, devices).1 == bundles + Fetched(state, tx, devices[i..]).1
      {
        var dev := devices[i];
        assert devices[i..][0] == dev && devices[i..][1..] == devices[i + 1..];
        if HasActiveSigned(state, dev) {
          var key := TakeOneTimePreKey(tx, dev);
          bundles := bundles + [Bundle(dev, key)];
        }
      }
      assert devices[|devices|..] == [];
    }

    /**
      One key-bundle transaction that nothing disturbs, begin to end; devices lists the user's devices. A user without
      devices is an error and changes nothing. Otherwise exactly the keys of the bundle are handed out.
    */
    method FetchUserKeyBundle(tx: Tx, user: Id, devices: seq<Id>, ghost maxDevices: nat) returns (r: Result<seq<Bundle>, Error>)
      requires Inv(state, maxDevices) && tx !in state.open && Lists(devices, DevicesOf(state, user))
      modifies this
      ensures r == Err(NoDevices) && state == old(state) <==> DevicesOf(old(state), user) == {}
      ensures DevicesOf(old(state), user) != {} ==>
                && r == Ok(Fetched(Begun(old(state), tx), tx, devices).1)
                && HandedOut(state) == old(HandedOut(state)) + Taken(r.value)
                && state.rows == old(state).rows - Taken(r.value) && state.locks == old(state).locks
      ensures Inv(state, maxDevices) && state.open == old(state.open)
    {
      if |devices| == 0 {
        return Err(NoDevices);
      }
      assert devices[0] in DevicesOf(state, user);
      UndisturbedFetch(state, maxDevices, tx, devices);
      state := Begun(state, tx);
      var bundles := FetchDevices(tx, devices);
      CommitTransaction(tx, bundles);
      r := Ok(bundles);
    }

    method CommitTransaction(tx: Tx, bundles: seq<Bundle>)
      modifies this
      ensures state == Commit(old(state), tx, KeysOf(bundles))
    {
      var order := KeysOf(bundles);
      state := Commit(state, tx, order);
    }

    method RollbackTransaction(tx: Tx)
      modifies this
      ensures state == Rollback(old(state), tx)
    {
      if tx in state.open {
        state := state.(locks := state.locks - HeldBy(state, tx));
        state := state.(open := state.open - {tx});
      }
    }

    method UploadSignedPreKey(device: Id, keyId: int) returns (error: Option<Error>)
      modifies this
      ensures match UploadSigned(old(state), device, keyId)
              case Ok(s) => error == None && state == s
              case Err(e) => error == Some(e) && state == old(state)
    {
      if device !in state.devices {
        return Some(DeviceNotFound);
      }
      // The unique violation rolls the whole transaction back, deactivation included.
      if (device, keyId) in state.signed {
        return Some(DuplicateKeyId);
      }
      state := state.(signed := map k | k in state.signed :: state.signed[k] && k.0 != device);
      state := state.(signed := state.signed[(device, keyId) := true]);
      return None;
    }

    /** Counting the user's devices and inserting the new one are one atomic step. */
    method RegisterDevice(row: Id, d: Device, maxDevices: nat) returns (error: Option<Error>)
      modifies this
      ensures match Register(old(state), row, d, maxDevices)
              case Ok(s) => error == None && state == s
              case Err(e) => error == Some(e) && state == old(state)
    {
      var count := |DevicesOf(state, d.user)|;
      if count >= maxDevices {
        return Some(MaxDevicesReached);
      }
      if row in state.devices || d in state.devices.Values {
        return Some(DuplicateDevice);
      }
      state := state.(devices := state.devices[row := d]);
      return None;
    }

    method RemoveDevice(row: Id) returns (error: Option<Error>)
      modifies this
      ensures match Remove(old(state), row)
              case Ok(s) => error == None && state == s
              case Err(e) => error == Some(e) && state == old(state)
    {
      if row !in state.devices {
        return Some(DeviceNotFound);
      }
      var lost := set r | r in state.rows && state.rows[r].device == row;
      if lost * state.locks.Keys != {} {
        ghost var r := Member(lost * state.locks.Keys);
        assert r in state.locks && r in state.rows && state.rows[r].device == row;
        return Some(Blocked);
      }
      forall r | r in state.locks && r in state.rows ensures state.rows[r].device != row {
        assert r !in lost * state.locks.Keys;
      }
      state := state.(devices := state.devices - {row},
                      signed := (map k | k in state.signed && k.0 != row :: state.signed[k]),
                      rows := state.rows - lost,
                      gone := state.gone + lost);
      return None;
    }
  }
}
