/** The capability manager: who holds which rights on which resource. */
module Capabilities {
  import opened Bytes

  const MAX_CAPS := 64
  const MAX_TASKS := 64
  const GRANT: bv32 := 8
  /** The identifier counter wraps at the machine word. */
  const WORD := 0x1_0000_0000_0000_0000

  datatype Error = CapabilityNotFound | CapabilityTableFull | InvalidResource | DelegationNotAllowed | NotInitialized

  datatype Kind = Memory | IpcChannel | Device | FileSystem | Network | Task | Timer

  datatype Resource = Resource(kind: Kind, id: nat)

  datatype Capability = Capability(id: nat, task: nat, resource: Resource, rights: bv32)

  type Caps = seq<Option<Capability>>

  datatype CapSet = CapSet(caps: Caps, count: nat)

  datatype State = State(sets: seq<CapSet>, initialized: bool, issued: nat)

  predicate Contains(rights: bv32, wanted: bv32) {
    rights & wanted == wanted
  }

  /** The rights that survive a restriction. */
  function Restrict(rights: bv32, wanted: bv32): bv32 {
    rights & wanted
  }

  predicate Meets(rights: bv32, mask: bv32) {
    rights & mask != 0
  }

  /** One right of a set. */
  predicate Has(rights: bv32, i: bv5) {
    (rights >> i) & 1 == 1
  }

  /** Some right from `i` on is in the set. */
  predicate HasFrom(rights: bv32, i: bv5) {
    rights >> i != 0
  }

  lemma NextRight(rights: bv32, i: bv5)
    requires HasFrom(rights, i) && !Has(rights, i)
    ensures i < 31 && HasFrom(rights, i + 1)
  {
  }

  /** A set that is not empty has a right. */
  lemma {:induction false} SomeRight(rights: bv32, from: bv5) returns (i: bv5)
    requires HasFrom(rights, from)
    ensures Has(rights, i)
    decreases 31 - from
  {
    hide Has, HasFrom;
    i := from;
    if !Has(rights, from) {
      NextRight(rights, from);
      i := SomeRight(rights, from + 1);
    }
  }

  lemma RightKept(rights: bv32, wanted: bv32, i: bv5)
    requires Contains(rights, wanted) && Has(wanted, i)
    ensures Has(rights, i)
  {
  }

  lemma RightMissing(rights: bv32, wanted: bv32)
    requires !Contains(rights, wanted)
    ensures HasFrom(wanted & !rights, 0)
  {
  }

  lemma RightOfBoth(rights: bv32, wanted: bv32, i: bv5)
    ensures Has(rights & wanted, i) <==> Has(rights, i) && Has(wanted, i)
    ensures Has(wanted & !rights, i) <==> Has(wanted, i) && !Has(rights, i)
  {
  }

  /** A set contains another exactly when it has all of its rights. */
  lemma ContainsMeans(rights: bv32, wanted: bv32)
    ensures Contains(rights, wanted) <==> forall i: bv5 :: Has(wanted, i) ==> Has(rights, i)
  {
    hide Has, HasFrom, Contains;
    if Contains(rights, wanted) {
      forall i: bv5 | Has(wanted, i)
        ensures Has(rights, i)
      {
        RightKept(rights, wanted, i);
      }
    } else {
      RightMissing(rights, wanted);
      var i := SomeRight(wanted & !rights, 0);
      RightOfBoth(rights, wanted, i);
    }
  }

  /** A restriction keeps exactly the rights in both sets. */
  lemma RestrictMeans(rights: bv32, wanted: bv32)
    ensures forall i: bv5 :: Has(Restrict(rights, wanted), i) <==> Has(rights, i) && Has(wanted, i)
  {
    hide Has;
    forall i: bv5
      ensures Has(Restrict(rights, wanted), i) <==> Has(rights, i) && Has(wanted, i)
    {
      RightOfBoth(rights, wanted, i);
    }
  }

  /** So it contains exactly what both contain. */
  lemma BothContain(rights: bv32, wanted: bv32, w: bv32)
    ensures Contains(Restrict(rights, wanted), w) <==> Contains(rights, w) && Contains(wanted, w)
  {
    hide Has, Contains, Restrict;
    RestrictMeans(rights, wanted);
    ContainsMeans(rights, w);
    ContainsMeans(wanted, w);
    ContainsMeans(Restrict(rights, wanted), w);
  }

  /** GRANT is the fourth right. */
  lemma GrantRight(rights: bv32)
    ensures Contains(rights, GRANT) <==> Has(rights, 3)
  {
  }

  // ---- One table ----------------------------------------------------------------

  function Occupied(caps: Caps): nat {
    if caps == [] then 0 else Occupied(caps[..|caps| - 1]) + if caps[|caps| - 1].Some? then 1 else 0
  }

  /** Filling an empty slot adds one, emptying a full one takes one away. */
  lemma {:induction false} OccupiedPut(caps: Caps, i: nat, c: Option<Capability>)
    requires i < |caps|
    ensures Occupied(caps[i := c]) == Occupied(caps) + (if c.Some? then 1 else 0) - (if caps[i].Some? then 1 else 0)
  {
    var n := |caps| - 1;
    if i < n {
      OccupiedPut(caps[..n], i, c);
      assert caps[i := c][..n] == caps[..n][i := c];
    } else {
      assert caps[i := c][..n] == caps[..n];
    }
  }

  lemma {:induction false} OccupiedBound(caps: Caps)
    ensures Occupied(caps) <= |caps|
    ensures Occupied(caps) == |caps| <==> forall i :: 0 <= i < |caps| ==> caps[i].Some?
  {
    if caps != [] {
      OccupiedBound(caps[..|caps| - 1]);
    }
  }

  lemma {:induction false} OccupiedNone(caps: Caps)
    requires forall i :: 0 <= i < |caps| ==> caps[i].None?
    ensures Occupied(caps) == 0
  {
    if caps != [] {
      OccupiedNone(caps[..|caps| - 1]);
    }
  }

  /** The first empty slot from `i` on, or the length. */
  function FreeSlot(caps: Caps, i: nat): (k: nat)
    requires i <= |caps|
    ensures i <= k <= |caps| && (k < |caps| ==> caps[k].None?) && forall j :: i <= j < k ==> caps[j].Some?
    decreases |caps| - i
  {
    if i == |caps| || caps[i].None? then i else FreeSlot(caps, i + 1)
  }

  /** The first slot from `i` on that holds the identifier, or the length. */
  function IdSlot(caps: Caps, id: nat, i: nat): (k: nat)
    requires i <= |caps|
    ensures i <= k <= |caps| && (k < |caps| ==> caps[k].Some? && caps[k].value.id == id)
    ensures forall j :: i <= j < k ==> caps[j].None? || caps[j].value.id != id
    decreases |caps| - i
  {
    if i == |caps| || (caps[i].Some? && caps[i].value.id == id) then i else IdSlot(caps, id, i + 1)
  }

  /** The first occupied slot from `i` on, or the length. */
  function FirstSlot(caps: Caps, i: nat): (k: nat)
    requires i <= |caps|
    ensures i <= k <= |caps| && (k < |caps| ==> caps[k].Some?) && forall j :: i <= j < k ==> caps[j].None?
    decreases |caps| - i
  {
    if i == |caps| || caps[i].Some? then i else FirstSlot(caps, i + 1)
  }

  method FindFree(caps: Caps) returns (k: nat)
    ensures k == FreeSlot(caps, 0)
  {
    k := 0;
    while k < |caps| && caps[k].Some?
      invariant k <= |caps| && FreeSlot(caps, 0) == FreeSlot(caps, k)
    {
      k := k + 1;
    }
  }

  method FindId(caps: Caps, id: nat) returns (k: nat)
    ensures k == IdSlot(caps, id, 0)
  {
    k := 0;
    while k < |caps| && (caps[k].None? || caps[k].value.id != id)
      invariant k <= |caps| && IdSlot(caps, id, 0) == IdSlot(caps, id, k)
    {
      k := k + 1;
    }
  }

  method FindFirst(caps: Caps) returns (k: nat)
    ensures k == FirstSlot(caps, 0)
  {
    k := 0;
    while k < |caps| && caps[k].None?
      invariant k <= |caps| && FirstSlot(caps, 0) == FirstSlot(caps, k)
    {
      k := k + 1;
    }
  }

  // ---- The tables ---------------------------------------------------------------

  predicate Shape(s: State) {
    |s.sets| == MAX_TASKS && forall t :: 0 <= t < MAX_TASKS ==> |s.sets[t].caps| == MAX_CAPS
  }

  function At(s: State, t: nat, i: nat): Option<Capability>
    requires Shape(s)
  {
    if t < MAX_TASKS && i < MAX_CAPS then s.sets[t].caps[i] else None
  }

  ghost predicate CountsOk(s: State) {
    Shape(s) && forall t :: 0 <= t < MAX_TASKS ==> s.sets[t].count == Occupied(s.sets[t].caps)
  }

  ghost predicate OwnersOk(s: State)
    requires Shape(s)
  {
    forall t, i :: At(s, t, i).Some? ==> At(s, t, i).value.task == t
  }

  /** Until the counter wraps, identifiers are unique and already issued. */
  ghost predicate IdsOk(s: State)
    requires Shape(s)
  {
    s.issued <= WORD ==>
      && (forall t, i :: At(s, t, i).Some? ==> At(s, t, i).value.id < s.issued)
      && (forall t, i, t', i' :: At(s, t, i).Some? && At(s, t', i').Some? && At(s, t, i).value.id == At(s, t', i').value.id
                                 ==> t == t' && i == i')
  }

  ghost predicate Valid(s: State) {
    CountsOk(s) && OwnersOk(s) && IdsOk(s) && (!s.initialized ==> forall t, i :: At(s, t, i).None?)
  }

  function Put(s: State, t: nat, i: nat, c: Option<Capability>, count: nat, issued: nat): (r: State)
    requires Shape(s) && t < MAX_TASKS && i < MAX_CAPS
    ensures Shape(r) && r.initialized == s.initialized
    ensures forall t', i' :: At(r, t', i') == if t' == t && i' == i then c else At(s, t', i')
  {
    s.(sets := s.sets[t := CapSet(s.sets[t].caps[i := c], count)], issued := issued)
  }

  // ---- Operations ---------------------------------------------------------------

  function Grant(s: State, t: nat, res: Resource, rights: bv32): (State, Result<nat, Error>)
    requires Shape(s)
  {
    if !s.initialized then (s, Err(NotInitialized))
    else if t >= MAX_TASKS then (s, Err(InvalidResource))
    else if s.sets[t].count >= MAX_CAPS then (s, Err(CapabilityTableFull))
    else
      var id, k := s.issued % WORD, FreeSlot(s.sets[t].caps, 0);
      if k == MAX_CAPS then (s.(issued := s.issued + 1), Err(CapabilityTableFull))
      else (Put(s, t, k, Some(Capability(id, t, res, rights)), s.sets[t].count + 1, s.issued + 1), Ok(id))
  }

  function Revoke(s: State, t: nat, id: nat): (State, Result<bool, Error>)
    requires Shape(s)
  {
    if !s.initialized then (s, Err(NotInitialized))
    else if t >= MAX_TASKS then (s, Err(InvalidResource))
    else
      var k := IdSlot(s.sets[t].caps, id, 0);
      if k == MAX_CAPS then (s, Err(CapabilityNotFound))
      else (Put(s, t, k, None, if s.sets[t].count > 0 then s.sets[t].count - 1 else 0, s.issued), Ok(true))
  }

  /** Only the first occupied slot of the giver is considered. */
  function Delegate(s: State, from: nat, to: nat, id: nat, rights: bv32): (State, Result<nat, Error>)
    requires Shape(s)
  {
    if !s.initialized then (s, Err(NotInitialized))
    else if from >= MAX_TASKS || to >= MAX_TASKS then (s, Err(InvalidResource))
    else
      var k := FirstSlot(s.sets[from].caps, 0);
      if k == MAX_CAPS || s.sets[from].caps[k].value.id != id then (s, Err(CapabilityNotFound))
      else
        var c := s.sets[from].caps[k].value;
        if !Contains(c.rights, GRANT) then (s, Err(DelegationNotAllowed))
        else Grant(s, to, c.resource, Restrict(c.rights, rights))
  }

  /** A valid table with room has a free slot: the second fullness test never fires. */
  lemma RoomMeansSlot(s: State, t: nat)
    requires Valid(s) && t < MAX_TASKS
    ensures s.sets[t].count < MAX_CAPS <==> FreeSlot(s.sets[t].caps, 0) < MAX_CAPS
  {
    OccupiedBound(s.sets[t].caps);
  }

  lemma FoundMeansOccupied(s: State, t: nat, k: nat)
    requires Valid(s) && t < MAX_TASKS && At(s, t, k).Some?
    ensures s.sets[t].count > 0
  {
    OccupiedPut(s.sets[t].caps, k, None);
  }

  lemma GrantValid(s: State, t: nat, res: Resource, rights: bv32)
    requires Valid(s)
    ensures Valid(Grant(s, t, res, rights).0)
  {
    if s.initialized && t < MAX_TASKS && s.sets[t].count < MAX_CAPS {
      RoomMeansSlot(s, t);
      var k := FreeSlot(s.sets[t].caps, 0);
      OccupiedPut(s.sets[t].caps, k, Some(Capability(s.issued % WORD, t, res, rights)));
      GrantIds(s, t, k, Capability(s.issued % WORD, t, res, rights));
    }
  }

  /** An identifier is fresh until the counter wraps. */
  lemma GrantIds(s: State, t: nat, k: nat, c: Capability)
    requires Valid(s) && t < MAX_TASKS && k < MAX_CAPS && At(s, t, k).None? && c.id == s.issued % WORD
    ensures IdsOk(Put(s, t, k, Some(c), s.sets[t].count + 1, s.issued + 1))
  {
  }

  lemma RevokeValid(s: State, t: nat, id: nat)
    requires Valid(s)
    ensures Valid(Revoke(s, t, id).0)
  {
    if s.initialized && t < MAX_TASKS && IdSlot(s.sets[t].caps, id, 0) < MAX_CAPS {
      OccupiedPut(s.sets[t].caps, IdSlot(s.sets[t].caps, id, 0), None);
    }
  }

  lemma DelegateValid(s: State, from: nat, to: nat, id: nat, rights: bv32)
    requires Valid(s)
    ensures Valid(Delegate(s, from, to, id, rights).0)
  {
    hide Grant, Valid;
    assert Shape(s) by { ValidShape(s); }
    if s.initialized && from < MAX_TASKS && to < MAX_TASKS {
      var k := FirstSlot(s.sets[from].caps, 0);
      if k < MAX_CAPS {
        var c := s.sets[from].caps[k].value;
        GrantValid(s, to, c.resource, Restrict(c.rights, rights));
      }
    }
  }

  lemma NothingHeld(s: State)
    requires Valid(s) && !s.initialized
    ensures s.sets[0].count == 0
  {
    forall i | 0 <= i < MAX_CAPS
      ensures s.sets[0].caps[i].None?
    {
      assert At(s, 0, i).None?;
    }
    OccupiedNone(s.sets[0].caps);
  }

  lemma ValidShape(s: State)
    requires Valid(s)
    ensures Shape(s)
  {
  }

  /** Delegating a held, delegatable capability to a task with room works exactly when it is
      the first one in its holder's table. */
  lemma DelegateWorksIff(s: State, from: nat, to: nat, k: nat, rights: bv32)
    requires Valid(s) && s.initialized && s.issued <= WORD && to < MAX_TASKS && s.sets[to].count < MAX_CAPS
    requires At(s, from, k).Some? && Contains(At(s, from, k).value.rights, GRANT)
    ensures Delegate(s, from, to, At(s, from, k).value.id, rights).1.Ok? <==> forall j :: 0 <= j < k ==> At(s, from, j).None?
  {
    hide Contains, Restrict;
    RoomMeansSlot(s, to);
    var f := FirstSlot(s.sets[from].caps, 0);
    assert At(s, from, f).Some? && f <= k;
    if f == k {
      forall j | 0 <= j < k
        ensures At(s, from, j).None?
      {
        assert s.sets[from].caps[j].None?;
      }
    }
  }

  // ---- What an operation gives ----------------------------------------------------

  /** has_capability: one capability of a task carries all the wanted rights. */
  ghost predicate Allowed(s: State, t: nat, res: Resource, w: bv32)
    requires Shape(s)
  {
    exists i :: At(s, t, i).Some? && At(s, t, i).value.resource == res && Contains(At(s, t, i).value.rights, w)
  }

  /** A grant works exactly when the manager runs, its receiver exists and has room, and then adds
      exactly that capability in a slot that was empty. */
  lemma GrantGives(s: State, t: nat, res: Resource, rights: bv32) returns (k: nat)
    requires Valid(s)
    ensures var (s', r) := Grant(s, t, res, rights);
            && Shape(s') && s'.initialized == s.initialized
            && (r.Ok? <==> s.initialized && t < MAX_TASKS && exists j :: 0 <= j < MAX_CAPS && At(s, t, j).None?)
            && (r.Err? ==> s' == s)
            && (r.Ok? ==> && At(s, t, k).None? && At(s', t, k) == Some(Capability(r.value, t, res, rights))
                          && forall t', i' :: t' != t || i' != k ==> At(s', t', i') == At(s, t', i'))
  {
    k := 0;
    if s.initialized && t < MAX_TASKS {
      RoomMeansSlot(s, t);
      k := FreeSlot(s.sets[t].caps, 0);
      if k < MAX_CAPS {
        assert At(s, t, k).None?;
      } else {
        forall j | 0 <= j < MAX_CAPS
          ensures At(s, t, j).Some?
        {
          assert s.sets[t].caps[j].Some?;
        }
      }
    }
  }

  /** After a grant a task may do exactly what it might before, and what it was granted. */
  lemma GrantAllows(s: State, t: nat, res: Resource, rights: bv32, t': nat, res': Resource, w: bv32)
    requires Valid(s) && Grant(s, t, res, rights).1.Ok?
    ensures var s' := Grant(s, t, res, rights).0;
            && Shape(s')
            && (Allowed(s', t', res', w) <==> Allowed(s, t', res', w) || (t' == t && res' == res && Contains(rights, w)))
  {
    hide Grant, Contains;
    ValidShape(s);
    var s' := Grant(s, t, res, rights).0;
    var k := GrantGives(s, t, res, rights);
    assert At(s', t, k).Some? && At(s, t, k).None?;
    if i :| At(s, t', i).Some? && At(s, t', i).value.resource == res' && Contains(At(s, t', i).value.rights, w) {
      assert At(s', t', i) == At(s, t', i);
    }
    if i :| At(s', t', i).Some? && At(s', t', i).value.resource == res' && Contains(At(s', t', i).value.rights, w) {
      assert t' != t || i != k ==> At(s', t', i) == At(s, t', i);
    }
  }

  /** The capability a delegation works from: the giver's first one, if it has that
      identifier and may be delegated. */
  ghost predicate Source(s: State, from: nat, id: nat, c: Capability)
    requires Shape(s)
  {
    exists k: nat :: && At(s, from, k) == Some(c) && c.id == id && Has(c.rights, 3)
                     && forall j :: 0 <= j < k ==> At(s, from, j).None?
  }

  lemma SourceOf(s: State, from: nat, to: nat, id: nat, rights: bv32) returns (c: Capability)
    requires Shape(s) && Delegate(s, from, to, id, rights).1.Ok?
    ensures Source(s, from, id, c) && Delegate(s, from, to, id, rights) == Grant(s, to, c.resource, Restrict(c.rights, rights))
  {
    hide Grant, Restrict, Contains, Has;
    var k := FirstSlot(s.sets[from].caps, 0);
    c := s.sets[from].caps[k].value;
    GrantRight(c.rights);
    assert At(s, from, k) == Some(c);
    forall j | 0 <= j < k
      ensures At(s, from, j).None?
    {
      assert s.sets[from].caps[j].None?;
    }
  }

  /** A delegation gives the receiver, on the giver's resource, exactly the rights that both the
      giver's capability and the request have, and changes no other slot. */
  lemma DelegateGives(s: State, from: nat, to: nat, id: nat, rights: bv32) returns (c: Capability, k: nat)
    requires Valid(s) && Delegate(s, from, to, id, rights).1.Ok?
    ensures Source(s, from, id, c)
    ensures var (s', r) := Delegate(s, from, to, id, rights);
            && Shape(s') && At(s, to, k).None? && At(s', to, k).Some?
            && var d := At(s', to, k).value;
            && d.id == r.value && d.task == to && d.resource == c.resource
            && (forall i: bv5 :: Has(d.rights, i) <==> Has(c.rights, i) && Has(rights, i))
            && (forall w :: Contains(d.rights, w) <==> Contains(c.rights, w) && Contains(rights, w))
            && forall t', i' :: t' != to || i' != k ==> At(s', t', i') == At(s, t', i')
  {
    hide Grant, Delegate, Has, Contains, Restrict, Source;
    ValidShape(s);
    c := SourceOf(s, from, to, id, rights);
    k := GrantGives(s, to, c.resource, Restrict(c.rights, rights));
    RestrictMeans(c.rights, rights);
    forall w
      ensures Contains(Restrict(c.rights, rights), w) <==> Contains(c.rights, w) && Contains(rights, w)
    {
      BothContain(c.rights, rights, w);
    }
  }

  /** So the receiver passes the check for exactly what it passed before and for what both the
      giver's capability and the request contain; nobody else notices. */
  lemma DelegateAllows(s: State, from: nat, to: nat, id: nat, rights: bv32, t: nat, res: Resource, w: bv32)
    returns (c: Capability)
    requires Valid(s) && Delegate(s, from, to, id, rights).1.Ok?
    ensures Source(s, from, id, c) && Shape(Delegate(s, from, to, id, rights).0)
    ensures Allowed(Delegate(s, from, to, id, rights).0, t, res, w) <==>
            Allowed(s, t, res, w) || (t == to && res == c.resource && Contains(c.rights, w) && Contains(rights, w))
  {
    hide Grant, Delegate, Has, Contains, Restrict, Source, Allowed;
    ValidShape(s);
    c := SourceOf(s, from, to, id, rights);
    GrantAllows(s, to, c.resource, Restrict(c.rights, rights), t, res, w);
    BothContain(c.rights, rights, w);
  }

  /** A revocation works exactly when its holder has the identifier, and then empties exactly
      one slot with it. */
  lemma RevokeTakes(s: State, t: nat, id: nat) returns (k: nat)
    requires Valid(s)
    ensures var (s', r) := Revoke(s, t, id);
            && Shape(s') && (r.Ok? <==> s.initialized && exists j :: At(s, t, j).Some? && At(s, t, j).value.id == id)
            && (r.Err? ==> s' == s)
            && (r.Ok? ==> && At(s, t, k).Some? && At(s, t, k).value.id == id && At(s', t, k).None?
                          && forall t', i' :: t' != t || i' != k ==> At(s', t', i') == At(s, t', i'))
  {
    k := 0;
    if s.initialized && t < MAX_TASKS {
      k := IdSlot(s.sets[t].caps, id, 0);
      if k < MAX_CAPS {
        assert At(s, t, k).Some? && At(s, t, k).value.id == id;
      } else {
        forall j: nat | At(s, t, j).Some?
          ensures At(s, t, j).value.id != id
        {
          assert s.sets[t].caps[j].value.id != id;
        }
      }
    }
  }

  lemma ReceiverAllowed(s: State, from: nat, to: nat, id: nat, rights: bv32)
    requires Valid(s) && Delegate(s, from, to, id, rights).1.Ok?
    ensures Shape(Delegate(s, from, to, id, rights).0)
    ensures exists c :: Source(s, from, id, c)
                        && forall w :: Contains(c.rights, w) && Contains(rights, w)
                                       ==> Allowed(Delegate(s, from, to, id, rights).0, to, c.resource, w)
  {
    hide Delegate, Has, Contains, Allowed, Source;
    ValidShape(s);
    var c, k := DelegateGives(s, from, to, id, rights);
    var s' := Delegate(s, from, to, id, rights).0;
    forall w | Contains(c.rights, w) && Contains(rights, w)
      ensures Allowed(s', to, c.resource, w)
    {
      OneAllows(s', to, k, w);
    }
  }

  lemma OneAllows(s: State, t: nat, k: nat, w: bv32)
    requires Shape(s) && At(s, t, k).Some? && Contains(At(s, t, k).value.rights, w)
    ensures Allowed(s, t, At(s, t, k).value.resource, w)
  {
  }

  // ---- Authority ----------------------------------------------------------------

  /** Some capability of `s` covers `c`: the same one, or one on the same resource with at
      least its rights that may be delegated. */
  ghost predicate Origin(s: State, c: Capability)
    requires Shape(s)
  {
    exists t, i :: At(s, t, i).Some? && Covers(At(s, t, i).value, c)
  }

  predicate Covers(d: Capability, c: Capability) {
    d == c || (d.resource == c.resource && Contains(d.rights, c.rights) && Contains(d.rights, GRANT))
  }

  lemma CoversTransitive(e: Capability, d: Capability, c: Capability)
    requires Covers(e, d) && Covers(d, c)
    ensures Covers(e, c)
  {
  }

  /** Every capability of `s'` has its origin in `s`. */
  ghost predicate Confined(s: State, s': State)
    requires Shape(s) && Shape(s')
  {
    forall t, i :: At(s', t, i).Some? ==> Origin(s, At(s', t, i).value)
  }

  lemma ConfinedSame(s: State)
    requires Shape(s)
    ensures Confined(s, s)
  {
    forall t: nat, i: nat | At(s, t, i).Some?
      ensures Origin(s, At(s, t, i).value)
    {
      assert Covers(At(s, t, i).value, At(s, t, i).value);
    }
  }

  lemma ConfinedTransitive(a: State, b: State, c: State)
    requires Shape(a) && Shape(b) && Shape(c) && Confined(a, b) && Confined(b, c)
    ensures Confined(a, c)
  {
    forall t: nat, i: nat | At(c, t, i).Some?
      ensures Origin(a, At(c, t, i).value)
    {
      var x := At(c, t, i).value;
      assert Origin(b, x);
      var t', i' :| At(b, t', i').Some? && Covers(At(b, t', i').value, x);
      var y := At(b, t', i').value;
      assert Origin(a, y);
      var t'', i'' :| At(a, t'', i'').Some? && Covers(At(a, t'', i'').value, y);
      CoversTransitive(At(a, t'', i'').value, y, x);
    }
  }

  lemma RevokeConfined(s: State, t: nat, id: nat)
    requires Valid(s)
    ensures Shape(Revoke(s, t, id).0) && Confined(s, Revoke(s, t, id).0)
  {
    var s' := Revoke(s, t, id).0;
    ConfinedSame(s);
    forall t', i' | At(s', t', i').Some?
      ensures Origin(s, At(s', t', i').value)
    {
      assert At(s', t', i') == At(s, t', i');
    }
  }

  /** A new capability appears in one slot at most. */
  lemma GrantAdds(s: State, t: nat, res: Resource, rights: bv32, t': nat, i': nat)
    requires Valid(s) && At(Grant(s, t, res, rights).0, t', i').Some?
    ensures var c := At(Grant(s, t, res, rights).0, t', i');
            c == At(s, t', i') || (c.value.resource == res && c.value.rights == rights)
  {
  }

  /** Granting a part of a delegatable capability is confined. */
  lemma GrantConfined(s: State, to: nat, t: nat, i: nat, rights: bv32)
    requires Valid(s) && At(s, t, i).Some? && Contains(At(s, t, i).value.rights, GRANT)
    ensures var c := At(s, t, i).value;
            var s' := Grant(s, to, c.resource, Restrict(c.rights, rights)).0;
            Shape(s') && Confined(s, s')
  {
    hide Contains, Restrict, Grant;
    var c := At(s, t, i).value;
    var s' := Grant(s, to, c.resource, Restrict(c.rights, rights)).0;
    GrantValid(s, to, c.resource, Restrict(c.rights, rights));
    ConfinedSame(s);
    RestrictedRights(c.rights, rights);
    forall t', i' | At(s', t', i').Some?
      ensures Origin(s, At(s', t', i').value)
    {
      GrantAdds(s, to, c.resource, Restrict(c.rights, rights), t', i');
      assert At(s', t', i') == At(s, t', i') || Covers(c, At(s', t', i').value);
    }
  }

  lemma DelegateConfined(s: State, from: nat, to: nat, id: nat, rights: bv32)
    requires Valid(s)
    ensures Shape(Delegate(s, from, to, id, rights).0) && Confined(s, Delegate(s, from, to, id, rights).0)
  {
    hide Grant, Valid, Confined, Contains, Restrict;
    ValidShape(s);
    ConfinedSame(s);
    if s.initialized && from < MAX_TASKS && to < MAX_TASKS {
      var k := FirstSlot(s.sets[from].caps, 0);
      if k < MAX_CAPS && Contains(At(s, from, k).value.rights, GRANT) {
        GrantConfined(s, to, from, k, rights);
      }
    }
  }

  lemma RestrictedRights(rights: bv32, wanted: bv32)
    ensures Contains(rights, Restrict(rights, wanted))
  {
  }

  // ---- Runs ---------------------------------------------------------------------

  datatype Op = DelegateOp(from: nat, to: nat, id: nat, rights: bv32) | RevokeOp(task: nat, id: nat)

  function Do(s: State, op: Op): State
    requires Shape(s)
  {
    match op
    case DelegateOp(from, to, id, rights) => Delegate(s, from, to, id, rights).0
    case RevokeOp(task, id) => Revoke(s, task, id).0
  }

  ghost function After(s: State, ops: seq<Op>): (r: State)
    requires Valid(s)
    ensures Valid(r)
  {
    if ops == [] then s
    else
      var m := After(s, ops[..|ops| - 1]);
      DoKeeps(m, ops[|ops| - 1]);
      Do(m, ops[|ops| - 1])
  }

  lemma DoKeeps(s: State, op: Op)
    requires Valid(s)
    ensures Valid(Do(s, op)) && Confined(s, Do(s, op))
  {
    hide Valid, Confined, Delegate, Revoke;
    ValidShape(s);
    match op
    case DelegateOp(from, to, id, rights) =>
      DelegateValid(s, from, to, id, rights);
      DelegateConfined(s, from, to, id, rights);
    case RevokeOp(task, id) =>
      RevokeValid(s, task, id);
      RevokeConfined(s, task, id);
  }

  /** Authority confinement over every run of delegations and revocations: whatever is held at
      the end was held at the start, or is covered by a delegatable capability of the start. */
  lemma {:induction false} EveryRun(s: State, ops: seq<Op>)
    requires Valid(s)
    ensures Confined(s, After(s, ops))
  {
    hide Valid, Confined, Do;
    ValidShape(s);
    if ops == [] {
      ConfinedSame(s);
    } else {
      var m := After(s, ops[..|ops| - 1]);
      EveryRun(s, ops[..|ops| - 1]);
      DoKeeps(m, ops[|ops| - 1]);
      ValidShape(m);
      ValidShape(After(s, ops));
      ConfinedTransitive(s, m, After(s, ops));
    }
  }

  /** Somebody holds one of the rights in `mask` on the resource. */
  ghost predicate Held(s: State, res: Resource, mask: bv32)
    requires Shape(s)
  {
    exists t, i :: At(s, t, i).Some? && At(s, t, i).value.resource == res && Meets(At(s, t, i).value.rights, mask)
  }

  /** The union of the rights held on a resource never grows. */
  lemma RightsNeverGrow(s: State, ops: seq<Op>, res: Resource, mask: bv32)
    requires Valid(s) && Held(After(s, ops), res, mask)
    ensures Held(s, res, mask)
  {
    hide Valid, After, Meets, Covers;
    ValidShape(s);
    ValidShape(After(s, ops));
    EveryRun(s, ops);
    var s' := After(s, ops);
    var t, i :| At(s', t, i).Some? && At(s', t, i).value.resource == res && Meets(At(s', t, i).value.rights, mask);
    var c := At(s', t, i).value;
    assert Origin(s, c);
    var t', i' :| At(s, t', i').Some? && Covers(At(s, t', i').value, c);
    MaskKept(At(s, t', i').value, c, mask);
  }

  lemma MaskKept(d: Capability, c: Capability, mask: bv32)
    requires Covers(d, c) && Meets(c.rights, mask)
    ensures Meets(d.rights, mask) && d.resource == c.resource
  {
  }

  /** A resource that nobody may delegate never gains a capability. */
  lemma NoGrantNoGain(s: State, ops: seq<Op>, t: nat, i: nat)
    requires Valid(s) && At(After(s, ops), t, i).Some?
    requires !Held(s, At(After(s, ops), t, i).value.resource, GRANT)
    ensures exists t', i' :: At(s, t', i') == At(After(s, ops), t, i)
  {
    hide Valid, After, Meets, Covers;
    ValidShape(s);
    ValidShape(After(s, ops));
    EveryRun(s, ops);
    var c := At(After(s, ops), t, i).value;
    assert Origin(s, c);
    var t', i' :| At(s, t', i').Some? && Covers(At(s, t', i').value, c);
    GrantHeld(At(s, t', i').value, c);
    assert At(s, t', i') == Some(c);
  }

  lemma GrantHeld(d: Capability, c: Capability)
    requires Covers(d, c)
    ensures d == c || (d.resource == c.resource && Meets(d.rights, GRANT))
  {
  }

  /** Revoking what was just granted restores every table. */
  lemma GrantThenRevoke(s: State, t: nat, res: Resource, rights: bv32)
    requires Valid(s) && s.issued < WORD && Grant(s, t, res, rights).1.Ok?
    ensures var g := Grant(s, t, res, rights);
            Shape(g.0) && Revoke(g.0, t, g.1.value) == (s.(issued := s.issued + 1), Ok(true))
  {
    var g := Grant(s, t, res, rights);
    GrantValid(s, t, res, rights);
    var k := FreeSlot(s.sets[t].caps, 0);
    var k' := IdSlot(g.0.sets[t].caps, g.1.value, 0);
    assert At(g.0, t, k).Some? && At(g.0, t, k).value.id == g.1.value;
    assert k' <= k;
    assert At(g.0, t, k').Some?;
    var r := Revoke(g.0, t, g.1.value).0;
    assert r.sets[t].caps == s.sets[t].caps;
    assert r.sets == s.sets;
  }

  // ---- The manager --------------------------------------------------------------

  class SecurityManager {
    var sets: seq<CapSet>
    var initialized: bool
    /** NEXT_CAP_ID, without the wrap that makes an identifier of it. */
    var issued: nat

    function Now(): State
      reads this
    {
      State(sets, initialized, issued)
    }

    /** Empty tables; nothing works before `Init`. */
    constructor ()
      ensures Valid(Now()) && !initialized && forall t, i :: At(Now(), t, i).None?
    {
      OccupiedNone(seq(MAX_CAPS, _ => None));
      sets := seq(MAX_TASKS, _ => CapSet(seq(MAX_CAPS, _ => None), 0));
      initialized, issued := false, 0;
    }

    /** `init` clears the kernel task's table, which is empty until then. */
    method Init()
      requires Valid(Now())
      modifies this
      ensures Valid(Now()) && initialized && issued == old(issued)
      ensures forall t, i :: At(Now(), t, i) == old(At(Now(), t, i))
    {
      if initialized {
        return;
      }
      ghost var before := Now();
      NothingHeld(before);
      sets := sets[0 := sets[0].(count := 0)];
      initialized := true;
      assert sets == before.sets;
      assert forall t, i :: At(Now(), t, i) == At(before, t, i);
    }

    method GrantCap(t: nat, res: Resource, rights: bv32) returns (r: Result<nat, Error>)
      requires Valid(Now())
      modifies this
      ensures Valid(Now())
      ensures (Now(), r) == Grant(old(Now()), t, res, rights)
    {
      GrantValid(Now(), t, res, rights);
      if !initialized {
        return Err(NotInitialized);
      }
      if t >= MAX_TASKS {
        return Err(InvalidResource);
      }
      if sets[t].count >= MAX_CAPS {
        return Err(CapabilityTableFull);
      }
      var cap := Capability(issued % WORD, t, res, rights);
      issued := issued + 1;
      var slot := FindFree(sets[t].caps);
      if slot == MAX_CAPS {
        return Err(CapabilityTableFull);
      }
      sets := sets[t := CapSet(sets[t].caps[slot := Some(cap)], sets[t].count + 1)];
      r := Ok(cap.id);
    }

    /** has_capability: some one capability of that task carries all the wanted rights. */
    method HasCapability(t: nat, res: Resource, wanted: bv32) returns (r: bool)
      requires Valid(Now())
      ensures r <==> Allowed(Now(), t, res, wanted)
    {
      if t >= MAX_TASKS {
        return false;
      }
      var i := 0;
      while i < MAX_CAPS
        invariant i <= MAX_CAPS
        invariant forall j :: 0 <= j < i && At(Now(), t, j).Some? && At(Now(), t, j).value.resource == res
                              ==> !Contains(At(Now(), t, j).value.rights, wanted)
      {
        var c := sets[t].caps[i];
        if c.Some? && c.value.resource == res && Contains(c.value.rights, wanted) {
          assert At(Now(), t, i) == c;
          return true;
        }
        i := i + 1;
      }
      return false;
    }

    method RevokeCap(t: nat, id: nat) returns (r: Result<bool, Error>)
      requires Valid(Now())
      modifies this
      ensures Valid(Now())
      ensures (Now(), r) == Revoke(old(Now()), t, id)
    {
      RevokeValid(Now(), t, id);
      if !initialized {
        return Err(NotInitialized);
      }
      if t >= MAX_TASKS {
        return Err(InvalidResource);
      }
      var slot := FindId(sets[t].caps, id);
      if slot == MAX_CAPS {
        return Err(CapabilityNotFound);
      }
      FoundMeansOccupied(Now(), t, slot);
      sets := sets[t := CapSet(sets[t].caps[slot := None], sets[t].count - 1)];
      r := Ok(true);
    }

    method DelegateCap(from: nat, to: nat, id: nat, rights: bv32) returns (r: Result<nat, Error>)
      requires Valid(Now())
      modifies this
      ensures Valid(Now()) && Confined(old(Now()), Now())
      ensures (Now(), r) == Delegate(old(Now()), from, to, id, rights)
      ensures r.Ok? ==> exists c :: Source(old(Now()), from, id, c)
                                    && forall w :: Contains(c.rights, w) && Contains(rights, w) ==> Allowed(Now(), to, c.resource, w)
    {
      hide Valid, Grant, Confined, Source, Allowed;
      ValidShape(Now());
      DelegateConfined(Now(), from, to, id, rights);
      if !initialized {
        return Err(NotInitialized);
      }
      if from >= MAX_TASKS || to >= MAX_TASKS {
        return Err(InvalidResource);
      }
      var slot := FindFirst(sets[from].caps);
      if slot == MAX_CAPS || sets[from].caps[slot].value.id != id {
        return Err(CapabilityNotFound);
      }
      ghost var before := Now();
      var source := sets[from].caps[slot].value;
      if !Contains(source.rights, GRANT) {
        return Err(DelegationNotAllowed);
      }
      r := GrantCap(to, source.resource, Restrict(source.rights, rights));
      if r.Ok? {
        ReceiverAllowed(before, from, to, id, rights);
      }
    }
  }
}
