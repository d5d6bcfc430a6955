/** The client pool under any interleaving: hits that never lock, creations with a second look-up under
    the lock, the TTL scan that rechecks under the lock what it saw without it, evictions over the size
    cap, clears, and a cap that is stored first and enforced later. */
module PoolMachine {
  import opened Wrappers
  import opened PoolPolicy

  type Pid = nat

  /** An entry is an object; its identity is also that of the client it wraps. */
  type Entry = nat

  datatype After = Create(key: Key, entry: Entry) | Resize

  datatype PC =
    | Lookup(key: Key)
    | Touch(key: Key, entry: Entry)
    | WantCreate(key: Key)
    | InCreate(key: Key)
    | Building(key: Key)
    | Inserted(key: Key, entry: Entry)
    | StoreCap(entries: int)
    | WantResize
    | ReadCap(after: After)
    | Scanning(after: After, cap: int, snapshot: map<Key, int>)
    | Evicting(after: After, cap: int, victims: seq<Key>, done: nat)
    | WantScan(keys: seq<Key>, cutoff: int)
    | Rechecking(keys: seq<Key>, cutoff: int, evicted: nat)
    | Expiring(keys: seq<Key>, cutoff: int, evicted: nat)
    | WantClear
    | Clearing(removed: nat)
    | Served(key: Key, entry: Entry)
    | Ended

  datatype Pool = Pool(
    entries: map<Key, Entry>,
    access: map<Entry, int>,      // lastAccess of every entry ever made
    next: Entry,
    count: int,                   // poolEntryCount
    evictions: nat,               // totalEvictions
    cap: int,                     // poolMaxEntries
    lock: Option<Pid>,
    procs: map<Pid, PC>,
    // history
    inserts: nat,
    cleared: nat,
    given: map<Key, Entry>)       // what look-ups returned for a key since it was last removed

  const INIT := Pool(map[], map[], 0, 0, 0, DEFAULT_MAX_ENTRIES, None, map[], 0, 0, map[])

  datatype Choice = Go | At(time: int) | Builds(ok: bool, time: int) | Pick(key: Key) | Decide(victims: seq<Key>)

  datatype Event = Arrive(p: Pid, pc: PC) | Run(p: Pid, choice: Choice)

  predicate Holds(pc: PC) {
    pc.InCreate? || pc.Building? || pc.Inserted? || pc.ReadCap? || pc.Scanning? || pc.Evicting? ||
    pc.Rechecking? || pc.Expiring? || pc.Clearing?
  }

  predicate Wants(pc: PC) {
    pc.WantCreate? || pc.WantResize? || pc.WantScan? || pc.WantClear?
  }

  function Granted(pc: PC): PC
    requires Wants(pc)
  {
    match pc
    case WantCreate(key) => InCreate(key)
    case WantResize => ReadCap(Resize)
    case WantScan(keys, cutoff) => Rechecking(keys, cutoff, 0)
    case WantClear => Clearing(0)
  }

  function Goto(s: Pool, p: Pid, pc: PC): Pool {
    s.(procs := s.procs[p := pc])
  }

  function Leave(s: Pool, p: Pid, pc: PC): Pool {
    s.(procs := s.procs[p := pc], lock := None)
  }

  function Remove(s: Pool, key: Key): Pool {
    s.(entries := s.entries - {key}, given := s.given - {key})
  }

  function ProtectedKey(after: After): Key {
    if after.Create? then after.key else NO_KEY
  }

  function FinishEviction(s: Pool, p: Pid, after: After): Pool {
    match after
    case Create(key, entry) => Leave(s.(given := s.given[key := entry]), p, Served(key, entry))
    case Resize => Leave(s, p, Ended)
  }

  // getOrCreateClientFromConfig

  function LookupStep(s: Pool, p: Pid, key: Key): Option<Pool> {
    Some(if key in s.entries then Goto(s.(given := s.given[key := s.entries[key]]), p, Touch(key, s.entries[key]))
         else Goto(s, p, WantCreate(key)))
  }

  function TouchStep(s: Pool, p: Pid, key: Key, entry: Entry, choice: Choice): Option<Pool> {
    if choice.At? then Some(Goto(s.(access := s.access[entry := choice.time]), p, Served(key, entry))) else None
  }

  function InCreateStep(s: Pool, p: Pid, key: Key, choice: Choice): Option<Pool> {
    if !choice.At? then None
    else if key !in s.entries then Some(Goto(s, p, Building(key)))
    else
      var entry := s.entries[key];
      Some(Leave(s.(access := s.access[entry := choice.time], given := s.given[key := entry]), p, Served(key, entry)))
  }

  function BuildingStep(s: Pool, p: Pid, key: Key, choice: Choice): Option<Pool> {
    if !choice.Builds? then None
    else if !choice.ok then Some(Leave(s, p, Ended))
    else
      var entry := s.next;
      Some(Goto(s.(entries := s.entries[key := entry], access := s.access[entry := choice.time], next := entry + 1,
                   inserts := s.inserts + 1),
                p, Inserted(key, entry)))
  }

  function InsertedStep(s: Pool, p: Pid, key: Key, entry: Entry): Option<Pool> {
    Some(Goto(s.(count := s.count + 1), p, ReadCap(Create(key, entry))))
  }

  // SetPoolMaxEntries and evictLRUOverCapLocked

  function StoreCapStep(s: Pool, p: Pid, entries: int): Option<Pool> {
    Some(Goto(s.(cap := if entries < 0 then DEFAULT_MAX_ENTRIES else entries), p, WantResize))
  }

  function ReadCapStep(s: Pool, p: Pid, after: After): Option<Pool> {
    Some(if s.cap <= 0 then FinishEviction(s, p, after) else Goto(s, p, Scanning(after, s.cap, map[])))
  }

  function ScanningStep(s: Pool, p: Pid, after: After, cap: int, snapshot: map<Key, int>, choice: Choice)
    : Option<Pool>
  {
    match choice
    case Pick(key) =>
      if key !in s.entries || key in snapshot || s.entries[key] !in s.access then None
      else Some(Goto(s, p, Scanning(after, cap, snapshot[key := s.access[s.entries[key]]])))
    case Decide(victims) =>
      if snapshot.Keys != s.entries.Keys || cap <= 0 then None
      else
        var over := Overflow(|s.entries|, cap, |Candidates(snapshot, ProtectedKey(after))|);
        if !LeastRecent(snapshot, ProtectedKey(after), over, victims) then None
        else
          var s' := s.(count := |s.entries|);
          Some(if over == 0 then FinishEviction(s', p, after) else Goto(s', p, Evicting(after, cap, victims, 0)))
    case _ => None
  }

  function EvictingStep(s: Pool, p: Pid, after: After, cap: int, victims: seq<Key>, done: nat): Option<Pool> {
    Some(if victims == [] then FinishEviction(s.(evictions := s.evictions + done), p, after)
         else Goto(Remove(s, victims[0]).(count := s.count - 1), p, Evicting(after, cap, victims[1..], done + 1)))
  }

  // evictStaleEntries

  function RecheckingStep(s: Pool, p: Pid, keys: seq<Key>, cutoff: int, evicted: nat): Option<Pool> {
    if keys == [] then Some(Leave(s.(evictions := s.evictions + evicted), p, Ended))
    else if keys[0] in s.entries && s.entries[keys[0]] in s.access && s.access[s.entries[keys[0]]] < cutoff then
      Some(Goto(s, p, Expiring(keys, cutoff, evicted)))
    else Some(Goto(s, p, Rechecking(keys[1..], cutoff, evicted)))
  }

  function ExpiringStep(s: Pool, p: Pid, keys: seq<Key>, cutoff: int, evicted: nat): Option<Pool> {
    if keys == [] then None
    else Some(Goto(Remove(s, keys[0]).(count := s.count - 1), p, Rechecking(keys[1..], cutoff, evicted + 1)))
  }

  // ClearClientPool

  function ClearingStep(s: Pool, p: Pid, removed: nat, choice: Choice): Option<Pool> {
    match choice
    case Pick(key) =>
      if key !in s.entries then None
      else Some(Goto(Remove(s, key).(cleared := s.cleared + 1), p, Clearing(removed + 1)))
    case Go => if s.entries == map[] then Some(Leave(s.(count := 0), p, Ended)) else None
    case _ => None
  }

  function Step(s: Pool, p: Pid, choice: Choice): Option<Pool>
    requires p in s.procs
  {
    var pc := s.procs[p];
    if Wants(pc) then
      (if s.lock.None? && choice == Go then Some(Goto(s, p, Granted(pc)).(lock := Some(p))) else None)
    else
      match pc
      case Lookup(key) => LookupStep(s, p, key)
      case Touch(key, entry) => TouchStep(s, p, key, entry, choice)
      case InCreate(key) => InCreateStep(s, p, key, choice)
      case Building(key) => BuildingStep(s, p, key, choice)
      case Inserted(key, entry) => InsertedStep(s, p, key, entry)
      case StoreCap(entries) => StoreCapStep(s, p, entries)
      case ReadCap(after) => ReadCapStep(s, p, after)
      case Scanning(after, cap, snapshot) => ScanningStep(s, p, after, cap, snapshot, choice)
      case Evicting(after, cap, victims, done) => EvictingStep(s, p, after, cap, victims, done)
      case Rechecking(keys, cutoff, evicted) => RecheckingStep(s, p, keys, cutoff, evicted)
      case Expiring(keys, cutoff, evicted) => ExpiringStep(s, p, keys, cutoff, evicted)
      case Clearing(removed) => ClearingStep(s, p, removed, choice)
      case _ => None
  }

  /** The four calls a client of the pool makes. The TTL scan reads the pool without the lock while it
      changes, so the keys it decides to delete can be any keys. */
  predicate Begins(pc: PC) {
    pc.Lookup? || pc.StoreCap? || pc.WantScan? || pc.WantClear?
  }

  function Apply(s: Pool, e: Event): Option<Pool> {
    match e
    case Arrive(p, pc) => if p in s.procs || !Begins(pc) then None else Some(Goto(s, p, pc))
    case Run(p, choice) => if p in s.procs then Step(s, p, choice) else None
  }

  function Exec(s: Pool, es: seq<Event>): Option<Pool>
    decreases |es|
  {
    if es == [] then Some(s)
    else
      match Apply(s, es[0])
      case None => None
      case Some(s') => Exec(s', es[1..])
  }
}
