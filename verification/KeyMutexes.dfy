/**
 The cache's per-directory locks: a map from directory to a weak reference to a recursive mutex, which lives as long as
 some thread shares it. The map is only touched under its own mutex, but a thread gives up its share at any time.
 */
module KeyMutexes {
  type Key = string

  type Thread = nat

  // A share of a mutex that a thread keeps, and whether it has locked the mutex through it.
  datatype Share = Share(key: Key, mutex: nat, locked: bool)

  // Where a thread is inside the map's critical section.
  datatype Section = Outside | Looking(key: Key) | Creating(key: Key)

  // Shares are nested like the calls that took them: the cache clears itself inside a save or a load.
  datatype State = State(
    registry: map<Key, nat>,
    created: nat,
    section: Section,
    inside: Thread,
    shares: map<Thread, seq<Share>>)
  {
    function Of(t: Thread): seq<Share> {
      if t in shares then shares[t] else []
    }

    ghost predicate Alive(mutex: nat) {
      exists t, i: nat :: t in shares && i < |shares[t]| && shares[t][i].mutex == mutex
    }

    ghost predicate LockedBy(t: Thread, mutex: nat) {
      exists i: nat :: i < |Of(t)| && Of(t)[i].mutex == mutex && Of(t)[i].locked
    }

    function Pushed(t: Thread, share: Share): State {
      this.(shares := shares[t := Of(t) + [share]])
    }

    function Top(t: Thread): Share
      requires Of(t) != []
    {
      Of(t)[|Of(t)| - 1]
    }

    function WithTop(t: Thread, locked: bool): State
      requires Of(t) != []
    {
      this.(shares := shares[t := Of(t)[..|Of(t)| - 1] + [Top(t).(locked := locked)]])
    }

    function Popped(t: Thread): State
      requires Of(t) != []
    {
      this.(shares := shares[t := Of(t)[..|Of(t)| - 1]])
    }
  }

  const START := State(map[], 0, Outside, 0, map[])

  datatype Act =
    | Enter(t: Thread, key: Key)
    | Finds                       // the weak reference still has a mutex: one more share
    | Misses                      // there is no entry, or its mutex is gone: the entry is erased
    | Creates
    | Locks(t: Thread)
    | Unlocks(t: Thread)
    | LetsGo(t: Thread)

  predicate Idle(s: State, t: Thread) {
    s.section.Outside? || s.inside != t
  }

  ghost predicate Can(s: State, act: Act) {
    match act
    case Enter(t, _) => s.section.Outside? && (s.Of(t) != [] ==> s.Top(t).locked)
    case Finds => s.section.Looking? && s.section.key in s.registry && s.Alive(s.registry[s.section.key])
    case Misses =>
      s.section.Looking? && (s.section.key in s.registry ==> !s.Alive(s.registry[s.section.key]))
    case Creates => s.section.Creating?
    case Locks(t) =>
      && Idle(s, t) && s.Of(t) != [] && !s.Top(t).locked
      && forall other | other != t :: !s.LockedBy(other, s.Top(t).mutex)
    case Unlocks(t) => Idle(s, t) && s.Of(t) != [] && s.Top(t).locked
    case LetsGo(t) => Idle(s, t) && s.Of(t) != [] && !s.Top(t).locked
  }

  ghost function Next(s: State, act: Act): State
    requires Can(s, act)
  {
    match act
    case Enter(t, key) => s.(section := Looking(key), inside := t)
    case Finds => s.Pushed(s.inside, Share(s.section.key, s.registry[s.section.key], false)).(section := Outside)
    case Misses => s.(registry := s.registry - {s.section.key}, section := Creating(s.section.key))
    case Creates =>
      s.Pushed(s.inside, Share(s.section.key, s.created, false))
       .(registry := s.registry[s.section.key := s.created], created := s.created + 1, section := Outside)
    case Locks(t) => s.WithTop(t, true)
    case Unlocks(t) => s.WithTop(t, false)
    case LetsGo(t) => s.Popped(t)
  }

  ghost predicate Possible(s: State, acts: seq<Act>)
    decreases |acts|
  {
    acts == [] || (Can(s, acts[0]) && Possible(Next(s, acts[0]), acts[1..]))
  }

  ghost function End(s: State, acts: seq<Act>): State
    requires Possible(s, acts)
    decreases |acts|
  {
    if acts == [] then s else End(Next(s, acts[0]), acts[1..])
  }

  // ----- The invariant -----

  /** A share's mutex is the one its key is registered with. */
  ghost predicate Registered(s: State) {
    forall t, i: nat | t in s.shares && i < |s.shares[t]| ::
      s.shares[t][i].key in s.registry && s.registry[s.shares[t][i].key] == s.shares[t][i].mutex
  }

  ghost predicate Distinct(s: State) {
    && (forall key | key in s.registry :: s.registry[key] < s.created)
    && (forall a, b | a in s.registry && b in s.registry && a != b :: s.registry[a] != s.registry[b])
    && (s.section.Creating? ==> s.section.key !in s.registry)
  }

  ghost predicate Exclusive(s: State) {
    forall t, u, i: nat, j: nat |
      t in s.shares && u in s.shares && i < |s.shares[t]| && j < |s.shares[u]| && s.shares[t][i].locked
      && s.shares[u][j].locked && s.shares[t][i].mutex == s.shares[u][j].mutex :: t == u
  }

  ghost predicate Inv(s: State) {
    Registered(s) && Distinct(s) && Exclusive(s)
  }

  lemma MissKeepsRegistered(s: State)
    requires Inv(s) && Can(s, Misses)
    ensures Registered(Next(s, Misses))
  {
    var key := s.section.key;
    forall t, i: nat | t in s.shares && i < |s.shares[t]| ensures s.shares[t][i].key != key {
      if s.shares[t][i].key == key {
        assert s.Alive(s.registry[key]);
      }
    }
  }

  lemma PushKeeps(s: State, next: State, t: Thread, share: Share)
    requires Inv(s) && next.shares == s.Pushed(t, share).shares && !share.locked
    requires share.key in next.registry && next.registry[share.key] == share.mutex
    requires forall key | key in s.registry :: key in next.registry && next.registry[key] == s.registry[key]
    ensures Registered(next) && Exclusive(next)
  {
  }

  lemma NotLockedElsewhere(s: State, t: Thread, u: Thread, i: nat)
    requires Can(s, Locks(t)) && u != t && i < |s.Of(u)| && s.Of(u)[i].mutex == s.Top(t).mutex
    ensures !s.Of(u)[i].locked
  {
    assert !s.LockedBy(u, s.Top(t).mutex);
  }

  lemma LocksKeeps(s: State, t: Thread)
    requires Inv(s) && Can(s, Locks(t))
    ensures Inv(Next(s, Locks(t)))
  {
    var next := Next(s, Locks(t));
    var n := |s.Of(t)| - 1;
    forall u, v, i: nat, j: nat |
      u in next.shares && v in next.shares && i < |next.shares[u]| && j < |next.shares[v]| && next.shares[u][i].locked
      && next.shares[v][j].locked && next.shares[u][i].mutex == next.shares[v][j].mutex
      ensures u == v {
      if v != t && u == t && i == n {
        NotLockedElsewhere(s, t, v, j);
      }
      if u != t && v == t && j == n {
        NotLockedElsewhere(s, t, u, i);
      }
    }
  }

  lemma NextKeepsInv(s: State, act: Act)
    requires Inv(s) && Can(s, act)
    ensures Inv(Next(s, act))
  {
    match act
    case Finds =>
      PushKeeps(s, Next(s, act), s.inside, Share(s.section.key, s.registry[s.section.key], false));
    case Misses =>
      MissKeepsRegistered(s);
    case Creates =>
      PushKeeps(s, Next(s, act), s.inside, Share(s.section.key, s.created, false));
    case Locks(t) =>
      LocksKeeps(s, t);
    case _ =>
  }

  lemma {:induction false} RunKeepsInv(s: State, acts: seq<Act>)
    requires Inv(s) && Possible(s, acts)
    ensures Inv(End(s, acts))
    decreases |acts|
  {
    if acts != [] {
      NextKeepsInv(s, acts[0]);
      RunKeepsInv(Next(s, acts[0]), acts[1..]);
    }
  }

  /**
   Although the map forgets expired mutexes and makes new ones, threads that share a mutex for the same directory at the
   same time share the same one, and for different directories different ones.
   */
  lemma HoldersShareOneMutex(acts: seq<Act>, t: Thread, i: nat, u: Thread, j: nat)
    requires Possible(START, acts)
    requires var s := End(START, acts); i < |s.Of(t)| && j < |s.Of(u)|
    ensures var s := End(START, acts);
            s.Of(t)[i].key == s.Of(u)[j].key <==> s.Of(t)[i].mutex == s.Of(u)[j].mutex
  {
    RunKeepsInv(START, acts);
  }

  /** So one directory is worked on by one thread at a time. */
  lemma OneThreadPerDirectory(acts: seq<Act>, t: Thread, i: nat, u: Thread, j: nat)
    requires Possible(START, acts)
    requires var s := End(START, acts);
             && i < |s.Of(t)| && j < |s.Of(u)| && s.Of(t)[i].locked && s.Of(u)[j].locked
             && s.Of(t)[i].key == s.Of(u)[j].key
    ensures t == u
  {
    RunKeepsInv(START, acts);
    HoldersShareOneMutex(acts, t, i, u, j);
  }

  // ----- The section as a method -----

  class KeyMutexMap {
    var keyMutexes: map<Key, nat>
    var created: nat

    constructor ()
      ensures keyMutexes == map[] && created == 0
    {
      keyMutexes, created := map[], 0;
    }

    /** The live mutexes are the ones some thread shares. */
    method GetKeyMutex(key: Key, live: set<nat>) returns (mutex: nat)
      modifies this
      ensures mutex == if key in old(keyMutexes) && old(keyMutexes)[key] in live
                       then old(keyMutexes)[key] else old(created)
      ensures keyMutexes == old(keyMutexes)[key := mutex]
      ensures created == if mutex == old(created) && (key !in old(keyMutexes) || old(keyMutexes)[key] !in live)
                         then old(created) + 1 else old(created)
    {
      if key in keyMutexes {
        mutex := keyMutexes[key];
        if mutex in live {
          assert keyMutexes == keyMutexes[key := mutex];
          return;
        }
        keyMutexes := keyMutexes - {key};
      }
      mutex := created;
      created := created + 1;
      keyMutexes := keyMutexes[key := mutex];
    }
  }

  /** The method's effect is that of a run of the section. */
  lemma SectionIsARun(s: State, t: Thread, key: Key, live: set<nat>) returns (acts: seq<Act>)
    requires Can(s, Enter(t, key)) && forall mutex :: mutex in live <==> s.Alive(mutex)
    ensures Possible(s, acts)
    ensures var found := key in s.registry && s.registry[key] in live;
            var mutex := if found then s.registry[key] else s.created;
            && End(s, acts).registry == s.registry[key := mutex]
            && End(s, acts).created == (if found then s.created else s.created + 1)
            && End(s, acts).shares == s.shares[t := s.Of(t) + [Share(key, mutex, false)]]
            && End(s, acts).section.Outside?
  {
    var looking := Next(s, Enter(t, key));
    assert forall mutex :: looking.Alive(mutex) <==> s.Alive(mutex);
    if key in s.registry && s.registry[key] in live {
      acts := [Enter(t, key), Finds];
      assert acts[1..] == [Finds] && [Finds][1..] == [];
      assert s.registry == s.registry[key := s.registry[key]];
    } else {
      acts := [Enter(t, key), Misses, Creates];
      assert acts[1..] == [Misses, Creates] && [Misses, Creates][1..] == [Creates] && [Creates][1..] == [];
    }
    var last := End(s, acts);
  }
}
