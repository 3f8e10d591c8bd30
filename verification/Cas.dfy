/** The content-addressed store under racing writers and copiers (src/cas.rs). Each process is cut
    into its atomic file-system steps; a run is any interleaving of them. */
module Cas {
  import opened Utf8
  import opened Wrappers

  type Root = nat
  type Pid = nat

  /** Where an object lies: `root/first/second/name`. */
  datatype Slot = Slot(root: Root, first: string, second: string, name: string)

  /** `None` keeps the caller's bytes inline. */
  datatype BlobRef = BlobRef(hash: string, size: nat, inline: Option<Bytes>)

  datatype CasError = Io | MissingObject | WrongSize | WrongDigest | InvalidDigest | CorruptSource

  datatype Env = Env(hash: Bytes -> string, threshold: Root -> nat)

  /** Digests are 64 lower-case hexadecimal characters, and no two of the known byte strings collide. */
  ghost predicate Sound(env: Env, known: set<Bytes>) {
    && (forall b :: ValidHash(env.hash(b)))
    && (forall a, b :: a in known && b in known && env.hash(a) == env.hash(b) ==> a == b)
  }

  predicate ValidHash(h: string) {
    |h| == 64 && forall c :: c in h ==> '0' <= c <= '9' || 'a' <= c <= 'f'
  }

  function SlotFor(root: Root, hash: string): (s: Slot)
    requires ValidHash(hash)
    ensures s.root == root && s.name == hash
  {
    Slot(root, hash[..2], hash[2..4], hash)
  }

  type Disk = map<Slot, Bytes>

  /** `verify_external`. */
  function VerifyExternal(env: Env, disk: Disk, root: Root, hash: string, size: nat): Result<(), CasError> {
    if !ValidHash(hash) then Err(InvalidDigest)
    else if SlotFor(root, hash) !in disk then Err(MissingObject)
    else if |disk[SlotFor(root, hash)]| != size then Err(WrongSize)
    else if env.hash(disk[SlotFor(root, hash)]) != hash then Err(WrongDigest)
    else Ok(())
  }

  function VerifyBytes(env: Env, hash: string, size: nat, bytes: Bytes): Result<Bytes, CasError> {
    if !ValidHash(hash) then Err(InvalidDigest)
    else if |bytes| != size then Err(WrongSize)
    else if env.hash(bytes) != hash then Err(WrongDigest)
    else Ok(bytes)
  }

  /** `get`. */
  function Get(env: Env, disk: Disk, root: Root, blob: BlobRef): Result<Bytes, CasError> {
    match blob.inline
    case Some(bytes) => VerifyBytes(env, blob.hash, blob.size, bytes)
    case None =>
      if !ValidHash(blob.hash) then Err(InvalidDigest)
      else if SlotFor(root, blob.hash) !in disk then Err(Io)
      else VerifyBytes(env, blob.hash, blob.size, disk[SlotFor(root, blob.hash)])
  }

  /** Bytes are returned exactly if they are the ones named, by digest and size, wherever they were kept. */
  lemma GetIsHonest(env: Env, disk: Disk, root: Root, blob: BlobRef, bytes: Bytes)
    ensures Get(env, disk, root, blob) == Ok(bytes) <==>
            && |blob.hash| == 64 && (forall c :: c in blob.hash ==> '0' <= c <= '9' || 'a' <= c <= 'f')
            && env.hash(bytes) == blob.hash && |bytes| == blob.size
            && (blob.inline == Some(bytes)
                || (blob.inline == None && exists slot :: slot in disk && IsSlotOf(slot, root, blob.hash) && disk[slot] == bytes))
  {
    if ValidHash(blob.hash) {
      assert IsSlotOf(SlotFor(root, blob.hash), root, blob.hash);
      forall slot | IsSlotOf(slot, root, blob.hash) ensures slot == SlotFor(root, blob.hash) {
        SlotIsOne(slot, root, blob.hash);
      }
    }
  }

  /** Two directories deep, by the first four digits. */
  predicate IsSlotOf(slot: Slot, root: Root, hash: string) {
    && slot.root == root && slot.name == hash && |slot.first| == 2 && |slot.second| == 2
    && slot.first + slot.second <= hash
  }

  lemma SlotIsOne(slot: Slot, root: Root, hash: string)
    requires ValidHash(hash) && IsSlotOf(slot, root, hash)
    ensures slot == SlotFor(root, hash)
  {
    assert hash[..2] == slot.first && hash[2..4] == slot.second;
  }

  // ----- Processes

  /** How far a copier has come, and what it has done so far. `present` and `slots` are what its
      source and the whole disk held when it began. */
  datatype Copier = Copier(source: Root, target: Root, present: set<Slot>, slots: set<Slot>,
                           enumerated: set<Slot>, published: set<Slot>, copied: nat)

  datatype Proc =
    | PutStart(root: Root, bytes: Bytes)
    | PutAbsent(root: Root, bytes: Bytes)                 // `destination.exists()` said no
    | PutWritten(root: Root, bytes: Bytes)                // the temporary file holds the bytes
    | PutVerifying(root: Root, bytes: Bytes)              // someone else's object has the name
    | PutDone(root: Root, bytes: Bytes, blob: BlobRef)
    | CopyStart(source: Root, target: Root)
    | CopyNext(c: Copier)
    | CopyRead(c: Copier, entry: Slot, data: Bytes)       // the source object passed its digest check
    | CopyWritten(c: Copier, entry: Slot, data: Bytes)
    | CopyVerifying(c: Copier, entry: Slot, data: Bytes)
    | CopyDone(c: Copier)
    | Failed(error: CasError)

  /** What a scheduler or the file system may decide at a step. */
  datatype Choice = Go | Fail | Pick(entry: Slot) | Finish

  datatype State = State(disk: Disk, procs: map<Pid, Proc>)

  /** The byte strings a process carries. */
  function Carried(p: Proc): set<Bytes> {
    if p.PutStart? || p.PutAbsent? || p.PutWritten? || p.PutVerifying? || p.PutDone? then {p.bytes}
    else if p.CopyRead? || p.CopyWritten? || p.CopyVerifying? then {p.data}
    else {}
  }

  ghost predicate Stores(known: set<Bytes>, disk: Disk) {
    forall slot :: slot in disk ==> disk[slot] in known
  }

  /** Nothing is on the disk or carried by a process but known byte strings. */
  ghost predicate Covers(known: set<Bytes>, s: State) {
    Stores(known, s.disk) && forall pid :: pid in s.procs ==> Carried(s.procs[pid]) <= known
  }

  function External(env: Env, bytes: Bytes): BlobRef {
    BlobRef(env.hash(bytes), |bytes|, None)
  }

  /** Entries a walk of the root can meet. */
  predicate Enumerable(slot: Slot, root: Root) {
    slot.root == root && slot.first != ".tmp"
  }

  /** One atomic step of one process: its next form and the disk it leaves. */
  function StepProc(env: Env, disk: Disk, p: Proc, choice: Choice): (Proc, Disk) {
    if choice == Fail && !p.PutDone? && !p.CopyDone? && !p.Failed? then (Failed(Io), disk)
    else match p
      case PutStart(root, bytes) =>
        var hash := env.hash(bytes);
        if |bytes| <= env.threshold(root) then (PutDone(root, bytes, BlobRef(hash, |bytes|, Some(bytes))), disk)
        else if !ValidHash(hash) then (Failed(InvalidDigest), disk)
        else if SlotFor(root, hash) in disk then (PutVerifying(root, bytes), disk)
        else (PutAbsent(root, bytes), disk)
      case PutAbsent(root, bytes) => (PutWritten(root, bytes), disk)
      case PutWritten(root, bytes) =>
        if !ValidHash(env.hash(bytes)) then (Failed(InvalidDigest), disk)
        else
          var slot := SlotFor(root, env.hash(bytes));
          if slot in disk then (PutVerifying(root, bytes), disk)
          else (PutDone(root, bytes, External(env, bytes)), disk[slot := bytes])
      case PutVerifying(root, bytes) =>
        (match VerifyExternal(env, disk, root, env.hash(bytes), |bytes|)
         case Ok(_) => (PutDone(root, bytes, External(env, bytes)), disk)
         case Err(e) => (Failed(e), disk))
      case CopyStart(source, target) =>
        var present := set slot | slot in disk && Enumerable(slot, source);
        (CopyNext(Copier(source, target, present, disk.Keys, {}, {}, 0)), disk)
      case CopyNext(c) =>
        (match choice
         case Pick(entry) =>
           if entry !in disk || !Enumerable(entry, c.source) || entry in c.enumerated then (p, disk)
           else if !ValidHash(entry.name) then (Failed(InvalidDigest), disk)
           else if env.hash(disk[entry]) != entry.name then (Failed(CorruptSource), disk)
           else (CopyRead(c, entry, disk[entry]), disk)
         case Finish => if c.present <= c.enumerated then (CopyDone(c), disk) else (p, disk)
         case _ => (p, disk))
      case CopyRead(c, entry, data) =>
        if !ValidHash(entry.name) then (Failed(InvalidDigest), disk)
        else if SlotFor(c.target, entry.name) in disk then (CopyVerifying(c, entry, data), disk)
        else (CopyWritten(c, entry, data), disk)
      case CopyWritten(c, entry, data) =>
        if !ValidHash(entry.name) then (Failed(InvalidDigest), disk)
        else
          var slot := SlotFor(c.target, entry.name);
          if slot in disk then (CopyVerifying(c, entry, data), disk)
          else
            (CopyNext(c.(enumerated := c.enumerated + {entry}, published := c.published + {slot}, copied := c.copied + 1)),
             disk[slot := data])
      case CopyVerifying(c, entry, data) =>
        (match VerifyExternal(env, disk, c.target, entry.name, |data|)
         case Ok(_) => (CopyNext(c.(enumerated := c.enumerated + {entry})), disk)
         case Err(e) => (Failed(e), disk))
      case PutDone(_, _, _) => (p, disk)
      case CopyDone(_) => (p, disk)
      case Failed(_) => (p, disk)
  }

  function Step(env: Env, s: State, pid: Pid, choice: Choice): State {
    if pid !in s.procs then s
    else
      var (p, disk) := StepProc(env, s.disk, s.procs[pid], choice);
      State(disk, s.procs[pid := p])
  }

  type History = seq<(Pid, Choice)>

  function Run(env: Env, s: State, h: History): State {
    if h == [] then s else Step(env, Run(env, s, h[..|h| - 1]), h[|h| - 1].0, h[|h| - 1].1)
  }

  // ----- What every step keeps

  /** Objects are only ever added. */
  ghost predicate Grows(a: Disk, b: Disk) {
    forall slot :: slot in a ==> slot in b && b[slot] == a[slot]
  }

  /** Objects added since `initial` are where their digest says. */
  ghost predicate AddedAreNamed(env: Env, initial: Disk, disk: Disk) {
    forall slot :: slot in disk && slot !in initial ==>
      ValidHash(env.hash(disk[slot])) && slot == SlotFor(slot.root, env.hash(disk[slot]))
  }

  /** The disk holds the bytes under their digest. */
  ghost predicate Holds(env: Env, disk: Disk, root: Root, bytes: Bytes) {
    && ValidHash(env.hash(bytes))
    && SlotFor(root, env.hash(bytes)) in disk
    && disk[SlotFor(root, env.hash(bytes))] == bytes
  }

  ghost predicate CopierGood(env: Env, disk: Disk, c: Copier) {
    && c.slots <= disk.Keys
    && |c.published| == c.copied
    && c.published !! c.slots
    && c.published <= disk.Keys
    && (forall e :: e in c.enumerated ==> OfSource(c, e) && e in disk && e.name == env.hash(disk[e]) && Holds(env, disk, c.target, disk[e]))
  }

  ghost predicate OfSource(c: Copier, e: Slot) {
    e.root == c.source && e.first != ".tmp"
  }

  ghost predicate Reads(env: Env, disk: Disk, c: Copier, e: Slot, data: Bytes) {
    CopierGood(env, disk, c) && OfSource(c, e) && e in disk && disk[e] == data && e.name == env.hash(data)
  }

  ghost predicate ProcGood(env: Env, disk: Disk, p: Proc) {
    match p
    case PutDone(root, bytes, blob) =>
      && blob == BlobRef(env.hash(bytes), |bytes|, blob.inline)
      && (blob.inline.Some? ==> blob.inline.value == bytes)
      && (blob.inline.None? ==> Holds(env, disk, root, bytes))
    case CopyNext(c) => CopierGood(env, disk, c)
    case CopyRead(c, entry, data) => Reads(env, disk, c, entry, data)
    case CopyWritten(c, entry, data) => Reads(env, disk, c, entry, data)
    case CopyVerifying(c, entry, data) => Reads(env, disk, c, entry, data)
    case CopyDone(c) => CopierGood(env, disk, c) && c.present <= c.enumerated
    case _ => true
  }

  ghost predicate Inv(env: Env, known: set<Bytes>, initial: Disk, s: State) {
    && Covers(known, s)
    && Grows(initial, s.disk)
    && AddedAreNamed(env, initial, s.disk)
    && forall pid :: pid in s.procs ==> ProcGood(env, s.disk, s.procs[pid])
  }

  /** Nothing has begun yet. The disk may hold anything, corrupt objects included. */
  ghost predicate Fresh(s: State) {
    forall pid :: pid in s.procs ==> s.procs[pid].PutStart? || s.procs[pid].CopyStart?
  }

  lemma StepGrows(env: Env, disk: Disk, p: Proc, choice: Choice)
    ensures Grows(disk, StepProc(env, disk, p, choice).1)
  {
  }

  lemma StepNames(env: Env, disk: Disk, p: Proc, choice: Choice)
    requires ProcGood(env, disk, p)
    ensures AddedAreNamed(env, disk, StepProc(env, disk, p, choice).1)
  {
  }

  /** No step brings in other byte strings. */
  lemma StepBringsNothing(env: Env, known: set<Bytes>, disk: Disk, p: Proc, choice: Choice)
    requires Stores(known, disk) && Carried(p) <= known
    ensures var (p', disk') := StepProc(env, disk, p, choice); Stores(known, disk') && Carried(p') <= known
  {
  }

  /** An object that verified is the object: known byte strings do not collide. */
  lemma VerifiedHolds(env: Env, known: set<Bytes>, disk: Disk, root: Root, bytes: Bytes)
    requires Sound(env, known) && Stores(known, disk) && bytes in known
    requires VerifyExternal(env, disk, root, env.hash(bytes), |bytes|).Ok?
    ensures Holds(env, disk, root, bytes)
  {
  }

  lemma CopierStaysGood(env: Env, a: Disk, b: Disk, c: Copier)
    requires CopierGood(env, a, c) && Grows(a, b)
    ensures CopierGood(env, b, c)
  {
  }

  lemma ProcStaysGood(env: Env, a: Disk, b: Disk, p: Proc)
    requires ProcGood(env, a, p) && Grows(a, b)
    ensures ProcGood(env, b, p)
  {
  }

  lemma PutStepKeepsGood(env: Env, known: set<Bytes>, disk: Disk, p: Proc, choice: Choice)
    requires Sound(env, known) && Stores(known, disk) && Carried(p) <= known
    requires p.PutStart? || p.PutAbsent? || p.PutWritten? || p.PutVerifying?
    ensures var (p', disk') := StepProc(env, disk, p, choice); ProcGood(env, disk', p')
  {
    if p.PutVerifying? && VerifyExternal(env, disk, p.root, env.hash(p.bytes), |p.bytes|).Ok? {
      VerifiedHolds(env, known, disk, p.root, p.bytes);
    }
  }

  lemma CopierMeets(env: Env, disk: Disk, c: Copier, entry: Slot)
    requires CopierGood(env, disk, c) && entry in disk && Holds(env, disk, c.target, disk[entry])
    requires entry.name == env.hash(disk[entry]) && OfSource(c, entry)
    ensures CopierGood(env, disk, c.(enumerated := c.enumerated + {entry}))
  {
  }

  /** Publishing an object that was absent. */
  lemma CopyPublishKeepsGood(env: Env, disk: Disk, c: Copier, entry: Slot, data: Bytes)
    requires ValidHash(env.hash(data)) && ProcGood(env, disk, CopyWritten(c, entry, data))
    requires SlotFor(c.target, entry.name) !in disk
    ensures var slot := SlotFor(c.target, entry.name);
            CopierGood(env, disk[slot := data],
              c.(enumerated := c.enumerated + {entry}, published := c.published + {slot}, copied := c.copied + 1))
  {
  }

  lemma CopyReadKeepsGood(env: Env, disk: Disk, p: Proc, choice: Choice)
    requires ProcGood(env, disk, p) && (p.CopyStart? || p.CopyNext? || p.CopyRead?)
    ensures var (p', disk') := StepProc(env, disk, p, choice); ProcGood(env, disk', p')
  {
  }

  lemma CopyWriteKeepsGood(env: Env, known: set<Bytes>, disk: Disk, p: Proc, choice: Choice)
    requires Sound(env, known) && Stores(known, disk) && Carried(p) <= known
    requires ProcGood(env, disk, p) && (p.CopyWritten? || p.CopyVerifying?)
    ensures var (p', disk') := StepProc(env, disk, p, choice); ProcGood(env, disk', p')
  {
    var c, entry, data := p.c, p.entry, p.data;
    if p.CopyWritten? {
      if SlotFor(c.target, entry.name) !in disk {
        CopyPublishKeepsGood(env, disk, c, entry, data);
      }
    } else if VerifyExternal(env, disk, c.target, entry.name, |data|).Ok? {
      VerifiedHolds(env, known, disk, c.target, data);
      CopierMeets(env, disk, c, entry);
    }
  }

  lemma StepKeepsProcGood(env: Env, known: set<Bytes>, disk: Disk, p: Proc, choice: Choice)
    requires Sound(env, known) && Stores(known, disk) && Carried(p) <= known
    requires ProcGood(env, disk, p)
    ensures var (p', disk') := StepProc(env, disk, p, choice); ProcGood(env, disk', p')
  {
    if p.PutStart? || p.PutAbsent? || p.PutWritten? || p.PutVerifying? {
      PutStepKeepsGood(env, known, disk, p, choice);
    } else if p.CopyStart? || p.CopyNext? || p.CopyRead? {
      CopyReadKeepsGood(env, disk, p, choice);
    } else if p.CopyWritten? || p.CopyVerifying? {
      CopyWriteKeepsGood(env, known, disk, p, choice);
    }
  }

  lemma StepKeepsInv(env: Env, known: set<Bytes>, initial: Disk, s: State, pid: Pid, choice: Choice)
    requires Sound(env, known) && Inv(env, known, initial, s)
    ensures Inv(env, known, initial, Step(env, s, pid, choice))
    ensures Grows(s.disk, Step(env, s, pid, choice).disk)
  {
    if pid in s.procs {
      var s' := Step(env, s, pid, choice);
      StepGrows(env, s.disk, s.procs[pid], choice);
      StepNames(env, s.disk, s.procs[pid], choice);
      StepBringsNothing(env, known, s.disk, s.procs[pid], choice);
      StepKeepsProcGood(env, known, s.disk, s.procs[pid], choice);
      forall q | q in s'.procs ensures ProcGood(env, s'.disk, s'.procs[q]) {
        if q != pid {
          ProcStaysGood(env, s.disk, s'.disk, s.procs[q]);
        }
      }
    }
  }

  lemma {:induction false} RunKeepsInv(env: Env, known: set<Bytes>, initial: Disk, s: State, h: History)
    requires Sound(env, known) && Inv(env, known, initial, s)
    ensures Inv(env, known, initial, Run(env, s, h))
    ensures Grows(s.disk, Run(env, s, h).disk)
  {
    if h != [] {
      var last := |h| - 1;
      RunKeepsInv(env, known, initial, s, h[..last]);
      StepKeepsInv(env, known, initial, Run(env, s, h[..last]), h[last].0, h[last].1);
    }
  }

  lemma FreshIsInv(env: Env, known: set<Bytes>, s: State)
    requires Fresh(s) && Covers(known, s)
    ensures Inv(env, known, s.disk, s)
  {
  }

  // ----- Safety of every interleaving

  /** No published object is ever replaced or removed, and every object the processes add lies under
      the digest of its bytes, even on a disk that began with corrupt objects. */
  lemma NeverReplaced(env: Env, known: set<Bytes>, s: State, h: History)
    requires Sound(env, known) && Covers(known, s) && Fresh(s)
    ensures Grows(s.disk, Run(env, s, h).disk)
    ensures AddedAreNamed(env, s.disk, Run(env, s, h).disk)
  {
    FreshIsInv(env, known, s);
    RunKeepsInv(env, known, s.disk, s, h);
  }

  /** Once a put has succeeded, its reference reads back the same bytes in every later state. */
  lemma PutStaysReadable(env: Env, known: set<Bytes>, s: State, h: History, later: History, pid: Pid)
    requires Sound(env, known) && Covers(known, s) && Fresh(s)
    requires pid in Run(env, s, h).procs && Run(env, s, h).procs[pid].PutDone?
    ensures var done := Run(env, s, h).procs[pid];
            Get(env, Run(env, Run(env, s, h), later).disk, done.root, done.blob) == Ok(done.bytes)
  {
    FreshIsInv(env, known, s);
    RunKeepsInv(env, known, s.disk, s, h);
    RunKeepsInv(env, known, s.disk, Run(env, s, h), later);
    assert ProcGood(env, Run(env, s, h).disk, Run(env, s, h).procs[pid]);
  }

  /** A copy that succeeded has left its target holding every object its source held when it began
      (and any other it met), intact, for good; it counted exactly the objects it published
      itself, none of which existed anywhere when it began. */
  lemma CopyIsComplete(env: Env, known: set<Bytes>, s: State, h: History, later: History, pid: Pid)
    requires Sound(env, known) && Covers(known, s) && Fresh(s)
    requires pid in Run(env, s, h).procs && Run(env, s, h).procs[pid].CopyDone?
    ensures var c := Run(env, s, h).procs[pid].c;
            var disk := Run(env, Run(env, s, h), later).disk;
            && (forall e :: e in c.enumerated ==> e in disk && e.name == env.hash(disk[e]) && Holds(env, disk, c.target, disk[e]))
            && (forall e :: e in c.enumerated ==> e.root == c.source && e.first != ".tmp")
            && c.present <= c.enumerated
            && c.copied == |c.published| && c.published !! c.slots
  {
    FreshIsInv(env, known, s);
    RunKeepsInv(env, known, s.disk, s, h);
    RunKeepsInv(env, known, s.disk, Run(env, s, h), later);
    var p := Run(env, s, h).procs[pid];
    assert ProcGood(env, Run(env, s, h).disk, p);
    CopierStaysGood(env, Run(env, s, h).disk, Run(env, Run(env, s, h), later).disk, p.c);
  }

  /** A copier that began with `disk` in sight: it has not started yet, has failed, or has noted at least
      the objects that lay in its source then, outside `.tmp`. */
  ghost predicate Begun(disk: Disk, source: Root, target: Root, p: Proc) {
    || p == CopyStart(source, target)
    || p.Failed?
    || (IsCopier(p) && p.c.source == source && p.c.target == target
        && forall e :: e in disk && e.root == source && e.first != ".tmp" ==> e in p.c.present)
  }

  predicate IsCopier(p: Proc) {
    p.CopyNext? || p.CopyRead? || p.CopyWritten? || p.CopyVerifying? || p.CopyDone?
  }

  lemma StepKeepsBegun(env: Env, before: Disk, disk: Disk, source: Root, target: Root, p: Proc, choice: Choice)
    requires Grows(before, disk) && Begun(before, source, target, p)
    ensures Begun(before, source, target, StepProc(env, disk, p, choice).0)
  {
  }

  lemma {:induction false} CopierBegan(env: Env, known: set<Bytes>, s: State, h: History, pid: Pid)
    requires Sound(env, known) && Covers(known, s) && Fresh(s) && pid in s.procs && s.procs[pid].CopyStart?
    ensures var p := s.procs[pid]; var end := Run(env, s, h);
            pid in end.procs && Begun(s.disk, p.source, p.target, end.procs[pid])
  {
    if h != [] {
      var last := |h| - 1;
      CopierBegan(env, known, s, h[..last], pid);
      NeverReplaced(env, known, s, h[..last]);
      var before := Run(env, s, h[..last]);
      StepKeepsBegun(env, s.disk, before.disk, s.procs[pid].source, s.procs[pid].target, before.procs[pid], h[last].1);
    }
  }

  /** So when a copy has succeeded, its target holds every object its source held at the start. */
  lemma CopyTakesAll(env: Env, known: set<Bytes>, s: State, h: History, later: History, pid: Pid)
    requires Sound(env, known) && Covers(known, s) && Fresh(s) && pid in s.procs && s.procs[pid].CopyStart?
    requires pid in Run(env, s, h).procs && Run(env, s, h).procs[pid].CopyDone?
    ensures var p, disk := s.procs[pid], Run(env, Run(env, s, h), later).disk;
            forall e :: e in s.disk && e.root == p.source && e.first != ".tmp" ==>
              e.name == env.hash(s.disk[e]) && Holds(env, disk, p.target, s.disk[e])
  {
    CopierBegan(env, known, s, h, pid);
    CopyIsComplete(env, known, s, h, later, pid);
    NeverReplaced(env, known, s, h);
    RunGrows(env, known, s, h, later);
  }

  lemma RunGrows(env: Env, known: set<Bytes>, s: State, h: History, later: History)
    requires Sound(env, known) && Covers(known, s) && Fresh(s)
    ensures Grows(s.disk, Run(env, Run(env, s, h), later).disk)
  {
    FreshIsInv(env, known, s);
    RunKeepsInv(env, known, s.disk, s, h);
    RunKeepsInv(env, known, s.disk, Run(env, s, h), later);
  }

  // ----- What a process achieves when left alone

  /** The object is not there yet, or is there intact. */
  predicate Welcome(disk: Disk, slot: Slot, bytes: Bytes) {
    slot !in disk || disk[slot] == bytes
  }

  lemma RunAppends(env: Env, s: State, h: History, pid: Pid, choice: Choice)
    ensures Run(env, s, h + [(pid, choice)]) == Step(env, Run(env, s, h), pid, choice)
  {
  }

  /** An undisturbed put needs three steps. It succeeds exactly when the bytes are small enough to
      stay inline or the store has no object, or the right one, under their digest. */
  lemma PutAlone(env: Env, known: set<Bytes>, s: State, pid: Pid)
    requires Sound(env, known) && Covers(known, s) && pid in s.procs && s.procs[pid].PutStart?
    ensures var p := s.procs[pid];
            var end := Run(env, s, [(pid, Go), (pid, Go), (pid, Go)]);
            var small := |p.bytes| <= env.threshold(p.root);
            var slot := SlotFor(p.root, env.hash(p.bytes));
            && pid in end.procs
            && (end.procs[pid].PutDone? <==> small || Welcome(s.disk, slot, p.bytes))
            && (!end.procs[pid].PutDone? ==> end.procs[pid].Failed?)
            && end.disk == if small || slot in s.disk then s.disk else s.disk[slot := p.bytes]
  {
    ThreeSteps(env, s, pid);
    DigestDecides(env, known, s.procs[pid].bytes);
    var s1 := Step(env, s, pid, Go);
    var s2 := Step(env, s1, pid, Go);
    assert s1.disk == s2.disk == s.disk && pid in s1.procs && pid in s2.procs;
  }

  lemma ThreeSteps(env: Env, s: State, pid: Pid)
    ensures Run(env, s, [(pid, Go), (pid, Go), (pid, Go)]) == Step(env, Step(env, Step(env, s, pid, Go), pid, Go), pid, Go)
  {
    RunAppends(env, s, [], pid, Go);
    RunAppends(env, s, [(pid, Go)], pid, Go);
    RunAppends(env, s, [(pid, Go), (pid, Go)], pid, Go);
    assert [] + [(pid, Go)] == [(pid, Go)];
    assert [(pid, Go)] + [(pid, Go)] == [(pid, Go), (pid, Go)];
    assert [(pid, Go), (pid, Go)] + [(pid, Go)] == [(pid, Go), (pid, Go), (pid, Go)];
  }

  lemma DigestDecides(env: Env, known: set<Bytes>, bytes: Bytes)
    requires Sound(env, known) && bytes in known
    ensures ValidHash(env.hash(bytes))
    ensures forall other :: other in known && env.hash(other) == env.hash(bytes) ==> other == bytes
  {
  }

  /** The source entry is intact and the target would take it. */
  ghost predicate Copyable(env: Env, disk: Disk, target: Root, entry: Slot) {
    && entry in disk
    && ValidHash(entry.name)
    && env.hash(disk[entry]) == entry.name
    && Welcome(disk, SlotFor(target, entry.name), disk[entry])
  }

  /** Only this process takes steps. */
  predicate Own(pid: Pid, h: History) {
    forall i :: 0 <= i < |h| ==> h[i].0 == pid
  }

  /** Copying one entry, step by step. */
  lemma CopyOneAlone(env: Env, s: State, pid: Pid, entry: Slot) returns (h: History)
    requires pid in s.procs && s.procs[pid].CopyNext?
    requires var c := s.procs[pid].c;
             entry !in c.enumerated && Enumerable(entry, c.source) && Copyable(env, s.disk, c.target, entry)
    ensures var c, end := s.procs[pid].c, Run(env, s, h);
            var slot := SlotFor(c.target, entry.name);
            && pid in end.procs && end.procs == s.procs[pid := end.procs[pid]]
            && end.procs[pid].CopyNext?
            && end.procs[pid].c.(published := c.published, copied := c.copied) == c.(enumerated := c.enumerated + {entry})
            && end.disk == s.disk[slot := s.disk[entry]]
    ensures Own(pid, h)
  {
    var slot := SlotFor(s.procs[pid].c.target, entry.name);
    var s1 := Step(env, s, pid, Pick(entry));
    var s2 := Step(env, s1, pid, Go);
    RunAppends(env, s, [], pid, Pick(entry));
    RunAppends(env, s, [(pid, Pick(entry))], pid, Go);
    RunAppends(env, s, [(pid, Pick(entry)), (pid, Go)], pid, Go);
    h := [] + [(pid, Pick(entry))];
    h := [(pid, Pick(entry))] + [(pid, Go)];
    h := [(pid, Pick(entry)), (pid, Go)] + [(pid, Go)];
    if slot in s.disk {
      assert s.disk == s.disk[slot := s.disk[entry]];
    }
  }

  ghost predicate AllCopyable(env: Env, disk: Disk, c: Copier) {
    forall e :: e in c.present ==> Enumerable(e, c.source) && Copyable(env, disk, c.target, e)
  }

  lemma StillCovers(known: set<Bytes>, s: State, end: State, pid: Pid, entry: Slot, slot: Slot)
    requires Covers(known, s) && entry in s.disk && pid in s.procs && pid in end.procs && end.procs[pid].CopyNext?
    requires end.procs == s.procs[pid := end.procs[pid]]
    requires end.disk == s.disk[slot := s.disk[entry]]
    ensures Covers(known, end)
  {
  }

  /** Copying one of the remaining entries leaves the others copyable. */
  lemma CopySomeAlone(env: Env, known: set<Bytes>, s: State, pid: Pid) returns (h: History)
    requires Sound(env, known) && Covers(known, s) && pid in s.procs && s.procs[pid].CopyNext?
    requires AllCopyable(env, s.disk, s.procs[pid].c) && !(s.procs[pid].c.present <= s.procs[pid].c.enumerated)
    ensures var c, end := s.procs[pid].c, Run(env, s, h);
            && pid in end.procs && end.procs[pid].CopyNext? && AllCopyable(env, end.disk, end.procs[pid].c)
            && end.procs[pid].c.present == c.present
            && |c.present - end.procs[pid].c.enumerated| < |c.present - c.enumerated|
            && Covers(known, end)
    ensures Own(pid, h)
  {
    var c := s.procs[pid].c;
    var entry :| entry in c.present && entry !in c.enumerated;
    h := CopyOneAlone(env, s, pid, entry);
    var s' := Run(env, s, h);
    StillAllCopyable(env, known, s.disk, c, entry);
    assert c.present - s'.procs[pid].c.enumerated == (c.present - c.enumerated) - {entry};
    StillCovers(known, s, s', pid, entry, SlotFor(c.target, entry.name));
  }

  lemma FinishAlone(env: Env, s: State, pid: Pid) returns (h: History)
    requires pid in s.procs && s.procs[pid].CopyNext? && s.procs[pid].c.present <= s.procs[pid].c.enumerated
    ensures Finishes(env, s, pid, h)
  {
    h := [] + [(pid, Finish)];
    RunAppends(env, s, [], pid, Finish);
  }

  ghost predicate Finishes(env: Env, s: State, pid: Pid, h: History) {
    Own(pid, h) && pid in Run(env, s, h).procs && Run(env, s, h).procs[pid].CopyDone?
  }

  lemma FinishesAfter(env: Env, s: State, pid: Pid, first: History, rest: History)
    requires Own(pid, first) && Finishes(env, Run(env, s, first), pid, rest)
    ensures Finishes(env, s, pid, first + rest)
  {
    RunSplits(env, s, first, rest);
  }

  /** An undisturbed copier whose remaining entries are all copyable reaches the end. */
  lemma {:induction false} CopyAlone(env: Env, known: set<Bytes>, s: State, pid: Pid) returns (h: History)
    requires Sound(env, known) && Covers(known, s) && pid in s.procs && s.procs[pid].CopyNext?
    requires AllCopyable(env, s.disk, s.procs[pid].c)
    ensures Finishes(env, s, pid, h)
    decreases |s.procs[pid].c.present - s.procs[pid].c.enumerated|
  {
    if s.procs[pid].c.present <= s.procs[pid].c.enumerated {
      h := FinishAlone(env, s, pid);
    } else {
      var first := CopySomeAlone(env, known, s, pid);
      var rest := CopyAlone(env, known, Run(env, s, first), pid);
      h := first + rest;
      FinishesAfter(env, s, pid, first, rest);
    }
  }

  lemma StillAllCopyable(env: Env, known: set<Bytes>, disk: Disk, c: Copier, entry: Slot)
    requires Sound(env, known) && Stores(known, disk) && Copyable(env, disk, c.target, entry) && AllCopyable(env, disk, c)
    ensures AllCopyable(env, disk[SlotFor(c.target, entry.name) := disk[entry]], c)
  {
    forall e | e in c.present ensures Copyable(env, disk[SlotFor(c.target, entry.name) := disk[entry]], c.target, e) {
      StillCopyable(env, known, disk, c.target, entry, e);
    }
  }

  lemma StillCopyable(env: Env, known: set<Bytes>, disk: Disk, target: Root, entry: Slot, e: Slot)
    requires Sound(env, known) && Stores(known, disk) && Copyable(env, disk, target, entry) && Copyable(env, disk, target, e)
    ensures Copyable(env, disk[SlotFor(target, entry.name) := disk[entry]], target, e)
  {
  }

  lemma {:induction false} RunSplits(env: Env, s: State, a: History, b: History)
    ensures Run(env, s, a + b) == Run(env, Run(env, s, a), b)
    decreases |b|
  {
    if b == [] {
      assert a + b == a;
    } else {
      var last := |b| - 1;
      RunSplits(env, s, a, b[..last]);
      assert (a + b)[..|a + b| - 1] == a + b[..last];
    }
  }

  // ----- The assumption can be met

  const HEX := "0123456789abcdef"

  /** The first 32 bytes in hexadecimal, padded with zeros. */
  function Hex(b: Bytes): (h: string)
    ensures ValidHash(h)
  {
    seq(64, i requires 0 <= i < 64 =>
      if i / 2 >= |b| then '0' else if i % 2 == 0 then HEX[b[i / 2] / 16] else HEX[b[i / 2] % 16])
  }

  lemma HexTellsApart(a: Bytes, b: Bytes)
    requires |a| == |b| == 32 && Hex(a) == Hex(b)
    ensures a == b
  {
    forall i | 0 <= i < 32 ensures a[i] == b[i] {
      assert Hex(a)[2 * i] == HEX[a[i] / 16] && Hex(b)[2 * i] == HEX[b[i] / 16];
      assert Hex(a)[2 * i + 1] == HEX[a[i] % 16] && Hex(b)[2 * i + 1] == HEX[b[i] % 16];
      HexDigits(a[i] / 16, b[i] / 16);
      HexDigits(a[i] % 16, b[i] % 16);
    }
  }

  lemma HexDigits(x: nat, y: nat)
    requires x < 16 && y < 16 && HEX[x] == HEX[y]
    ensures x == y
  {
  }

  /** For any number of byte strings of 32 bytes, and any thresholds, there is a digest that is sound for them. */
  lemma SoundIsMet(known: set<Bytes>, threshold: Root -> nat)
    requires forall b :: b in known ==> |b| == 32
    ensures Sound(Env(b => Hex(b), threshold), known)
  {
    forall a, b | a in known && b in known && Hex(a) == Hex(b) ensures a == b {
      HexTellsApart(a, b);
    }
  }
}
