/**
 The binding manager of crates/hotki-engine/src/key_binding.rs and the hotkey
 API it drives.

 An update takes registrations down and puts new ones up one at a time, in
 whatever order the hash tables yield, and any removal may fail.  It is all or
 nothing all the same, and at no point in between is a binding that the update
 leaves alone without its registration.
 */
module KeyBinding {
  import opened Wrappers
  import opened Keys

  type Id = nat

  datatype Registration = Registration(id: Id, chord: Chord)

  // ---------- The hotkey API ----------

  /** The registrations the operating system acts on, and every state they have been in. */
  class HotkeyApi {
    var registrations: map<Id, Chord>
    var lastId: Id
    var captures: nat
    ghost var history: seq<map<Id, Chord>>

    ghost predicate Valid()
      reads this
    {
      forall id <- registrations :: id <= lastId
    }

    constructor ()
      ensures Valid() && registrations == map[] && captures == 0 && history == []
    {
      registrations, lastId, captures, history := map[], 0, 0, [];
    }

    /** The new id differs from every live one; nothing else is known of it. */
    method Intercept(chord: Chord) returns (id: Id)
      requires Valid()
      modifies this`registrations, this`lastId, this`history
      ensures Valid() && id !in old(registrations)
      ensures registrations == old(registrations)[id := chord]
      ensures history == old(history) + [registrations]
    {
      id := lastId + 1;
      lastId := id;
      registrations := registrations[id := chord];
      history := history + [registrations];
    }

    /** A removal either happens or fails and changes nothing. */
    method Unregister(id: Id) returns (ok: bool)
      requires Valid()
      modifies this`registrations, this`history
      ensures Valid()
      ensures registrations == if ok then old(registrations) - {id} else old(registrations)
      ensures history == old(history) + [registrations]
    {
      ok := *;
      if ok {
        registrations := registrations - {id};
      }
      history := history + [registrations];
    }

    method CaptureAll()
      modifies this`captures
      ensures captures == old(captures) + 1
    {
      captures := captures + 1;
    }

    /** Dropping a capture guard. */
    method ReleaseCapture()
      requires captures > 0
      modifies this`captures
      ensures captures == old(captures) - 1
    {
      captures := captures - 1;
    }
  }

  // ---------- Bindings as values ----------

  type Bindings = map<string, Registration>

  function Chords(bindings: Bindings): map<string, Chord> {
    map ident | ident in bindings :: bindings[ident].chord
  }

  /** Collecting pairs into a hash map: the last pair of an identifier wins. */
  function Collect(pairs: seq<(string, Chord)>): map<string, Chord> {
    if pairs == [] then map[]
    else Collect(pairs[..|pairs| - 1])[pairs[|pairs| - 1].0 := pairs[|pairs| - 1].1]
  }

  /** `idents` is `bindings` read backwards. */
  ghost predicate Inverse(bindings: Bindings, idents: map<Id, string>) {
    && (forall a | a in bindings :: bindings[a].id in idents && idents[bindings[a].id] == a)
    && (forall id | id in idents :: idents[id] in bindings && bindings[idents[id]].id == id)
  }

  /** The operating system has exactly the recorded registrations. */
  ghost predicate Registered(bindings: Bindings, registrations: map<Id, Chord>) {
    && (forall a | a in bindings :: bindings[a].id in registrations
                                 && registrations[bindings[a].id] == bindings[a].chord)
    && (forall id | id in registrations :: HasId(bindings, id))
  }

  ghost predicate HasId(bindings: Bindings, id: Id) {
    exists a :: a in bindings && bindings[a].id == id
  }

  /** Every state in `states` has the bindings of `kept`, under their ids. */
  ghost predicate AlwaysRegistered(kept: Bindings, states: seq<map<Id, Chord>>) {
    forall k, a | 0 <= k < |states| && a in kept ::
      kept[a].id in states[k] && states[k][kept[a].id] == kept[a].chord
  }

  ghost predicate Subset(kept: Bindings, bindings: Bindings) {
    forall a | a in kept :: a in bindings && bindings[a] == kept[a]
  }

  /** Removed registrations in the order of their removal. */
  type Removals = seq<(string, Registration)>

  function Notes(removals: Removals): set<string> {
    set r | r in removals :: r.0
  }

  ghost predicate Distinct(removals: Removals) {
    forall i, j | 0 <= i < j < |removals| :: removals[i].0 != removals[j].0
  }

  function ChordsOf(removals: Removals): map<string, Chord> {
    if removals == [] then map[]
    else ChordsOf(removals[..|removals| - 1])[removals[|removals| - 1].0 := removals[|removals| - 1].1.chord]
  }

  /** `after` continues `before` with states that all have the bindings of `kept`. */
  ghost predicate Extends(before: seq<map<Id, Chord>>, after: seq<map<Id, Chord>>, kept: Bindings) {
    before <= after && AlwaysRegistered(kept, after[|before|..])
  }

  /** The bindings an update leaves alone: those whose chord stays the same. */
  function Unchanged(bindings: Bindings, desired: map<string, Chord>): Bindings {
    map a | a in bindings && a in desired && desired[a] == bindings[a].chord :: bindings[a]
  }

  lemma InsertKeeps(bindings: Bindings, idents: map<Id, string>, registrations: map<Id, Chord>,
                    ident: string, id: Id, chord: Chord)
    requires Inverse(bindings, idents) && Registered(bindings, registrations)
    requires ident !in bindings && id !in registrations
    ensures Inverse(bindings[ident := Registration(id, chord)], idents[id := ident])
    ensures Registered(bindings[ident := Registration(id, chord)], registrations[id := chord])
  {
    var after := bindings[ident := Registration(id, chord)];
    forall x | x in registrations[id := chord]
      ensures HasId(after, x)
    {
      if x == id {
        assert after[ident].id == x;
      } else {
        var a :| a in bindings && bindings[a].id == x;
        assert after[a].id == x;
      }
    }
  }

  lemma OverwriteLoses(bindings: Bindings, registrations: map<Id, Chord>, ident: string, id: Id, chord: Chord)
    requires Registered(bindings, registrations) && ident in bindings && id !in registrations
    requires forall a | a in bindings :: a == ident || bindings[a].id != bindings[ident].id
    ensures !Registered(bindings[ident := Registration(id, chord)], registrations[id := chord])
  {
    var lost := bindings[ident].id;
    assert lost in registrations[id := chord];
    assert !HasId(bindings[ident := Registration(id, chord)], lost);
  }

  lemma RemoveKeeps(bindings: Bindings, idents: map<Id, string>, registrations: map<Id, Chord>, ident: string)
    requires Inverse(bindings, idents) && Registered(bindings, registrations) && ident in bindings
    ensures Inverse(bindings - {ident}, idents - {bindings[ident].id})
    ensures Registered(bindings - {ident}, registrations - {bindings[ident].id})
  {
    var after := bindings - {ident};
    forall x | x in registrations - {bindings[ident].id}
      ensures HasId(after, x)
    {
      var a :| a in bindings && bindings[a].id == x;
      assert after[a].id == x;
    }
  }

  lemma ExtendsNone(history: seq<map<Id, Chord>>, kept: Bindings)
    ensures Extends(history, history, kept)
  {
  }

  lemma ExtendsOne(before: seq<map<Id, Chord>>, mid: seq<map<Id, Chord>>, state: map<Id, Chord>,
                   kept: Bindings, bindings: Bindings)
    requires Extends(before, mid, kept) && Subset(kept, bindings) && Registered(bindings, state)
    ensures Extends(before, mid + [state], kept)
  {
    var after := mid + [state];
    var states := after[|before|..];
    assert states == mid[|before|..] + [state];
    forall k: int, a: string | 0 <= k < |states| && a in kept
      ensures kept[a].id in states[k] && states[k][kept[a].id] == kept[a].chord
    {
      if k < |states| - 1 {
        assert states[k] == mid[|before|..][k];
      } else {
        assert states[k] == state && bindings[a] == kept[a];
      }
    }
  }

  /** Moving one binding into the notes keeps the whole. */
  lemma NoteOne(bindings: Bindings, removals: Removals, ident: string)
    requires ident in bindings && Distinct(removals) && Notes(removals) !! bindings.Keys
    ensures var removals' := removals + [(ident, bindings[ident])];
            var bindings' := bindings - {ident};
            && Distinct(removals') && Notes(removals') !! bindings'.Keys
            && Chords(bindings') + ChordsOf(removals') == Chords(bindings) + ChordsOf(removals)
  {
    OneMoreNote(removals, ident, bindings[ident]);
    NotedKeys(removals);
    hide Distinct, Notes, ChordsOf;
    MovedChord(bindings, ident, ChordsOf(removals));
  }

  lemma OneMoreNote(removals: Removals, ident: string, r: Registration)
    requires Distinct(removals) && ident !in Notes(removals)
    ensures var removals' := removals + [(ident, r)];
            && Distinct(removals') && Notes(removals') == Notes(removals) + {ident}
            && ChordsOf(removals') == ChordsOf(removals)[ident := r.chord]
  {
    var removals' := removals + [(ident, r)];
    assert removals'[..|removals|] == removals;
    forall j | 0 <= j < |removals|
      ensures removals[j].0 != ident
    {
      assert removals[j] in removals;
    }
  }

  lemma MovedChord(bindings: Bindings, ident: string, noted: map<string, Chord>)
    requires ident in bindings && noted.Keys !! bindings.Keys
    ensures Chords(bindings - {ident}) + noted[ident := bindings[ident].chord] == Chords(bindings) + noted
  {
  }

  lemma {:induction false} NotedKeys(removals: Removals)
    ensures ChordsOf(removals).Keys == Notes(removals)
  {
    if removals != [] {
      var init := removals[..|removals| - 1];
      NotedKeys(init);
      assert removals == init + [removals[|removals| - 1]];
    }
  }

  lemma NoteNext(removals: Removals, i: nat)
    requires i < |removals| && Distinct(removals)
    ensures removals[..i + 1][..i] == removals[..i]
    ensures Notes(removals[..i + 1]) == Notes(removals[..i]) + {removals[i].0}
    ensures removals[i].0 !in Notes(removals[..i]) && removals[i].0 in Notes(removals)
    ensures ChordsOf(removals[..i + 1]) == ChordsOf(removals[..i])[removals[i].0 := removals[i].1.chord]
  {
    assert removals[..i + 1] == removals[..i] + [removals[i]];
  }

  lemma NothingNoted(base: map<string, Chord>)
    ensures base + ChordsOf([]) == base && Notes([]) == {}
  {
  }

  function Picked(desired: map<string, Chord>, idents: set<string>): map<string, Chord> {
    map a | a in idents && a in desired :: desired[a]
  }

  lemma NonePicked(base: map<string, Chord>, desired: map<string, Chord>, idents: set<string>)
    requires idents == {}
    ensures base + Picked(desired, idents) == base
  {
  }

  lemma PickOne(desired: map<string, Chord>, idents: set<string>, ident: string)
    requires ident in desired && ident in idents
    ensures Picked(desired, idents) == Picked(desired, idents - {ident})[ident := desired[ident]]
  {
  }

  lemma ChordsInsert(bindings: Bindings, ident: string, r: Registration,
                     base: map<string, Chord>, more: map<string, Chord>)
    requires Chords(bindings) == base + more
    ensures Chords(bindings[ident := r]) == base + more[ident := r.chord]
  {
    assert Chords(bindings[ident := r]) == Chords(bindings)[ident := r.chord];
  }

  /** Taking down what is gone or changed, then putting up what is new or changed, is the whole job. */
  lemma UpdatedChords(bindings: Bindings, desired: map<string, Chord>,
                      replaced: set<string>, added: set<string>, removed: set<string>)
    requires replaced == set a | a in desired && a in bindings && bindings[a].chord != desired[a]
    requires added == desired.Keys - bindings.Keys && removed == bindings.Keys - desired.Keys
    ensures Chords(bindings - removed - replaced) + Picked(desired, added) + Picked(desired, replaced) == desired
  {
  }

  lemma ExtendsBoth(a: seq<map<Id, Chord>>, b: seq<map<Id, Chord>>, c: seq<map<Id, Chord>>, kept: Bindings)
    requires Extends(a, b, kept) && Extends(b, c, kept)
    ensures Extends(a, c, kept)
  {
    var states := c[|a|..];
    assert states == b[|a|..] + c[|b|..];
    forall k: int, x: string | 0 <= k < |states| && x in kept
      ensures kept[x].id in states[k] && states[k][kept[x].id] == kept[x].chord
    {
      if k < |b[|a|..]| {
        assert states[k] == b[|a|..][k];
      } else {
        assert states[k] == c[|b|..][k - |b[|a|..]|];
      }
    }
  }

  lemma SizesDecide(a: map<string, Chord>, b: map<string, Chord>)
    ensures a == b <==> |a| == |b| && forall k <- b :: k in a && a[k] == b[k]
  {
    if |a| == |b| && forall k <- b :: k in a && a[k] == b[k] {
      assert b.Keys <= a.Keys;
      SameSize(b.Keys, a.Keys);
    }
  }

  lemma {:induction false} SameSize(a: set<string>, b: set<string>)
    requires a <= b && |a| == |b|
    ensures a == b
  {
    if x :| x in b && x !in a {
      assert a <= b - {x};
      SmallerSize(a, b - {x});
    }
  }

  lemma {:induction false} SmallerSize(a: set<string>, b: set<string>)
    requires a <= b
    ensures |a| <= |b|
  {
    if a != {} {
      var x :| x in a;
      SmallerSize(a - {x}, b - {x});
    }
  }

  // ---------- The manager ----------

  class KeyBindingManager {
    const api: HotkeyApi
    var bindings: Bindings
    var identsById: map<Id, string>
    var captureGuard: bool
    var captureAllActive: bool

    ghost predicate Valid()
      reads this, api
    {
      && api.Valid()
      && Inverse(bindings, identsById)
      && Registered(bindings, api.registrations)
      && captureGuard == captureAllActive
      && api.captures == (if captureGuard then 1 else 0)
    }

    constructor (api: HotkeyApi)
      requires api.Valid() && api.registrations == map[] && api.captures == 0
      ensures Valid() && this.api == api && bindings == map[] && !captureAllActive
    {
      this.api := api;
      bindings, identsById, captureGuard, captureAllActive := map[], map[], false, false;
    }

    /**
     Callers register identifiers that are not bound.  Registering a bound one again
     overwrites its entry, and what the OS still has under the old id is lost track of.
     */
    method RegisterBinding(ident: string, chord: Chord)
      requires Valid()
      modifies this`bindings, this`identsById, api`registrations, api`lastId, api`history
      ensures Valid() <==> ident !in old(bindings)
      ensures ident in bindings && bindings == old(bindings)[ident := Registration(bindings[ident].id, chord)]
      ensures bindings[ident].id !in old(api.registrations)
      ensures api.registrations == old(api.registrations)[bindings[ident].id := chord]
      ensures api.history == old(api.history) + [api.registrations]
    {
      var id := api.Intercept(chord);
      if ident in bindings {
        OverwriteLoses(bindings, old(api.registrations), ident, id, chord);
      } else {
        InsertKeeps(bindings, identsById, old(api.registrations), ident, id, chord);
      }
      bindings := bindings[ident := Registration(id, chord)];
      identsById := identsById[id := ident];
    }

    /** `Ok(None)` when there is nothing to remove, `Err` when the API refuses. */
    method UnregisterBinding(ident: string) returns (r: Result<Option<Registration>, ()>)
      requires Valid()
      modifies this`bindings, this`identsById, api`registrations, api`history
      ensures Valid()
      ensures match r
              case Err(_) => bindings == old(bindings) && ident in bindings
              case Ok(None) => bindings == old(bindings) && ident !in bindings
              case Ok(Some(removed)) =>
                ident in old(bindings) && removed == old(bindings)[ident] && bindings == old(bindings) - {ident}
      ensures api.history == old(api.history) + (if ident in old(bindings) then [api.registrations] else [])
    {
      if ident !in bindings {
        return Ok(None);
      }
      var binding := bindings[ident];
      var ok := api.Unregister(binding.id);
      if !ok {
        return Err(());
      }
      RemoveKeeps(bindings, identsById, old(api.registrations), ident);
      bindings := bindings - {ident};
      identsById := identsById - {binding.id};
      return Ok(Some(binding));
    }

    /** Remove `idents` in any order, noting what was removed, up to the first refusal. */
    method TakeDown(idents: set<string>, noted: Removals, ghost kept: Bindings)
      returns (ok: bool, removals: Removals)
      requires Valid() && Subset(kept, bindings) && kept.Keys !! idents
      requires idents <= bindings.Keys && Notes(noted) !! bindings.Keys && Distinct(noted)
      modifies this`bindings, this`identsById, api`registrations, api`history
      ensures Valid() && Subset(kept, bindings)
      ensures Extends(old(api.history), api.history, kept)
      ensures Distinct(removals) && Notes(removals) !! bindings.Keys
      ensures ok ==> bindings == old(bindings) - idents
      ensures Chords(bindings) + ChordsOf(removals) == Chords(old(bindings)) + ChordsOf(noted)
    {
      hide Extends, Distinct, Notes, Chords, ChordsOf, Inverse, HasId;
      removals := noted;
      var pending := idents;
      ExtendsNone(api.history, kept);
      while pending != {}
        invariant Valid() && Subset(kept, bindings) && pending <= bindings.Keys && pending <= idents
        invariant Extends(old(api.history), api.history, kept)
        invariant Distinct(removals) && Notes(removals) !! bindings.Keys
        invariant bindings == old(bindings) - (idents - pending)
        invariant Chords(bindings) + ChordsOf(removals) == Chords(old(bindings)) + ChordsOf(noted)
      {
        var ident :| ident in pending;
        ghost var before, history := bindings, api.history;
        var r := UnregisterBinding(ident);
        ExtendsOne(old(api.history), history, api.registrations, kept, bindings);
        if r.Err? {
          return false, removals;
        }
        NoteOne(before, removals, ident);
        pending := pending - {ident};
        removals := removals + [(ident, r.value.value)];
      }
      ok := true;
    }

    /** `restore_bindings`: put removed bindings back, under new ids. */
    method RestoreBindings(removals: Removals, ghost kept: Bindings)
      requires Valid() && Subset(kept, bindings)
      requires Distinct(removals) && Notes(removals) !! bindings.Keys
      modifies this`bindings, this`identsById, api`registrations, api`lastId, api`history
      ensures Valid() && Subset(kept, bindings)
      ensures Extends(old(api.history), api.history, kept)
      ensures Chords(bindings) == Chords(old(bindings)) + ChordsOf(removals)
    {
      hide Extends, Inverse, HasId, Chords, ChordsOf, Distinct, Notes;
      ExtendsNone(api.history, kept);
      assert removals[..0] == [];
      NothingNoted(Chords(bindings));
      for i := 0 to |removals|
        invariant Valid() && Subset(kept, bindings)
        invariant Extends(old(api.history), api.history, kept)
        invariant bindings.Keys == old(bindings.Keys) + Notes(removals[..i])
        invariant Chords(bindings) == Chords(old(bindings)) + ChordsOf(removals[..i])
      {
        NoteNext(removals, i);
        ghost var before, history := bindings, api.history;
        RegisterBinding(removals[i].0, removals[i].1.chord);
        ExtendsOne(old(api.history), history, api.registrations, kept, bindings);
        ChordsInsert(before, removals[i].0, bindings[removals[i].0],
                     Chords(old(bindings)), ChordsOf(removals[..i]));
      }
      assert removals[..|removals|] == removals;
    }

    /** Register `idents`, in any order, with their desired chords. */
    method PutUp(idents: set<string>, desired: map<string, Chord>, ghost kept: Bindings)
      requires Valid() && Subset(kept, bindings)
      requires idents !! bindings.Keys && idents <= desired.Keys
      modifies this`bindings, this`identsById, api`registrations, api`lastId, api`history
      ensures Valid() && Subset(kept, bindings)
      ensures Extends(old(api.history), api.history, kept)
      ensures bindings.Keys == old(bindings.Keys) + idents
      ensures Chords(bindings) == Chords(old(bindings)) + Picked(desired, idents)
    {
      hide Extends, Inverse, HasId, Chords, Picked;
      ExtendsNone(api.history, kept);
      var pending := idents;
      NonePicked(Chords(bindings), desired, idents - pending);
      while pending != {}
        invariant Valid() && Subset(kept, bindings) && pending <= idents
        invariant Extends(old(api.history), api.history, kept)
        invariant bindings.Keys == old(bindings.Keys) + (idents - pending)
        invariant Chords(bindings) == Chords(old(bindings)) + Picked(desired, idents - pending)
      {
        var ident :| ident in pending;
        ghost var before, history, done := bindings, api.history, idents - pending;
        RegisterBinding(ident, desired[ident]);
        ExtendsOne(old(api.history), history, api.registrations, kept, bindings);
        ChordsInsert(before, ident, bindings[ident], Chords(old(bindings)), Picked(desired, done));
        pending := pending - {ident};
        PickOne(desired, idents - pending, ident);
        assert (idents - pending) - {ident} == done;
      }
      assert idents - pending == idents;
    }

    /**
     `update_bindings`.  Success leaves exactly the desired bindings, failure
     exactly the old ones, and a binding whose chord stays the same keeps its id
     and its registration at every point.
     */
    method UpdateBindings(pairs: seq<(string, Chord)>) returns (r: Result<bool, ()>)
      requires Valid()
      modifies this`bindings, this`identsById, api`registrations, api`lastId, api`history
      ensures Valid()
      ensures r.Ok? ==> Chords(bindings) == Collect(pairs)
      ensures r.Ok? ==> (r.value <==> Chords(old(bindings)) != Collect(pairs))
      ensures r.Err? ==> Chords(bindings) == Chords(old(bindings)) != Collect(pairs)
      ensures r == Ok(false) ==> bindings == old(bindings) && api.history == old(api.history)
      ensures Subset(Unchanged(old(bindings), Collect(pairs)), bindings)
      ensures Extends(old(api.history), api.history, Unchanged(old(bindings), Collect(pairs)))
    {
      var desired := Collect(pairs);
      ghost var was, kept := bindings, Unchanged(bindings, desired);
      hide Extends, Inverse, HasId, ChordsOf, Chords, Picked, Notes;
      ExtendsNone(api.history, kept);
      NothingNoted(Chords(bindings));
      if BindingsMatch(desired) {
        return Ok(false);
      }
      var replaced := set a | a in desired && a in bindings && bindings[a].chord != desired[a];
      var added := desired.Keys - bindings.Keys;
      var removed := bindings.Keys - desired.Keys;

      label start:
      var ok, removals := TakeDown(removed, [], kept);
      if ok {
        label between:
        ok, removals := TakeDown(replaced, removals, kept);
        ExtendsBoth(old(api.history), old@between(api.history), api.history, kept);
      }
      if !ok {
        label refused:
        RestoreBindings(removals, kept);
        ExtendsBoth(old(api.history), old@refused(api.history), api.history, kept);
        return Err(());
      }
      label down:
      PutUp(added, desired, kept);
      ExtendsBoth(old(api.history), old@down(api.history), api.history, kept);
      label half:
      PutUp(replaced, desired, kept);
      ExtendsBoth(old(api.history), old@half(api.history), api.history, kept);
      UpdatedChords(was, desired, replaced, added, removed);
      return Ok(true);
    }

    /** `bindings_match` compares sizes and then looks every desired pair up. */
    function BindingsMatch(desired: map<string, Chord>): (same: bool)
      reads this`bindings
      ensures same <==> Chords(bindings) == desired
    {
      assert Chords(bindings).Keys == bindings.Keys;
      SizesDecide(Chords(bindings), desired);
      |bindings| == |desired|
      && forall a <- desired :: a in bindings && bindings[a].chord == desired[a]
    }

    /** `set_capture_all`: hold the capture guard exactly while capture is asked for. */
    method SetCaptureAll(active: bool)
      requires Valid()
      modifies this`captureGuard, this`captureAllActive, api`captures
      ensures Valid() && captureAllActive == active
    {
      captureAllActive := active;
      if active && !captureGuard {
        api.CaptureAll();
        captureGuard := true;
      } else if !active && captureGuard {
        api.ReleaseCapture();
        captureGuard := false;
      }
    }

    function Resolve(id: Id): Option<(string, Chord)>
      reads this`bindings, this`identsById
    {
      Resolution(bindings, identsById, id)
    }
  }

  function Resolution(bindings: Bindings, idents: map<Id, string>, id: Id): Option<(string, Chord)> {
    if id !in idents || idents[id] !in bindings then None
    else Some((idents[id], bindings[idents[id]].chord))
  }

  function IdForIdent(bindings: Bindings, ident: string): Option<Id> {
    if ident in bindings then Some(bindings[ident].id) else None
  }

  /** Resolving an id inverts looking an identifier's id up, and the OS agrees. */
  lemma ResolveInverts(bindings: Bindings, idents: map<Id, string>, registrations: map<Id, Chord>,
                       id: Id, ident: string, chord: Chord)
    requires Inverse(bindings, idents) && Registered(bindings, registrations)
    ensures Resolution(bindings, idents, id) == Some((ident, chord))
       <==> IdForIdent(bindings, ident) == Some(id) && id in registrations && registrations[id] == chord
    ensures Resolution(bindings, idents, id).Some? <==> id in registrations
  {
    if id in registrations {
      var a :| a in bindings && bindings[a].id == id;
    }
  }
}
