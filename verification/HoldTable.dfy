/** The table of held requests as the object behind the route's mutex. */
module HoldTable {
  import opened Results
  import opened Holds

  /** The holds taken off the lists under `keys`. */
  function Removed(waiting: map<string, seq<nat>>, ids: set<nat>, keys: set<string>): set<nat> {
    set k, id | k in keys && k in waiting && id in waiting[k] && id in ids :: id
  }

  lemma NothingRemoved(waiting: map<string, seq<nat>>)
    ensures Removed(waiting, {}, waiting.Keys) == {}
  {
  }

  /** The loop of `cancel_owner` over the waiting lists. */
  method FilterLists(waiting: map<string, seq<nat>>, ids: set<nat>)
    returns (kept: map<string, seq<nat>>, notified: set<nat>)
    ensures kept == Filtered(waiting, ids, waiting.Keys)
    ensures notified == Removed(waiting, ids, waiting.Keys)
  {
    var left := waiting.Keys;
    kept, notified := map[], {};
    while left != {}
      invariant left <= waiting.Keys
      invariant kept == Filtered(waiting, ids, waiting.Keys - left)
      invariant notified == Removed(waiting, ids, waiting.Keys - left)
      decreases |left|
    {
      var key :| key in left;
      var list := Without(waiting[key], ids);
      notified := notified + (set id | id in waiting[key] && id in ids);
      if list != [] { kept := kept[key := list]; }
      left := left - {key};
    }
    assert waiting.Keys - left == waiting.Keys;
  }

  class HoldTable {
    var waiting: map<string, seq<nat>>
    var owners: map<string, nat>
    var active: map<nat, string>
    var total: nat
    var next: nat
    /** The holds whose notification is kept for a wait still to come. */
    var permits: set<nat>
    var stopping: bool
    const caps: Caps

    function Now(): State
      reads this
    {
      State(waiting, owners, active, total, next)
    }

    constructor (caps: Caps)
      ensures Now() == EMPTY && permits == {} && !stopping && this.caps == caps
    {
      waiting, owners, active, total, next := map[], map[], map[], 0, 0;
      permits, stopping, this.caps := {}, false, caps;
    }

    /** `release_all`. */
    method ReleaseAll()
      modifies this`stopping
      ensures stopping
    {
      stopping := true;
    }

    /** `hold`. */
    method Hold(owner: string, keys: seq<string>) returns (hold: Option<Hold>)
      modifies this
      ensures hold.None? <==> old(stopping) || CapReached(old(Now()), caps, owner)
      ensures hold.None? ==> Now() == old(Now())
      ensures hold.Some? ==> Now() == Taken(old(Now()), owner, keys)
                             && hold.value == Holds.Hold(old(next) + 1, owner, keys)
      ensures permits == old(permits) && stopping == old(stopping)
    {
      if stopping { return None; }
      if total >= caps.total || Count(owners, owner) >= caps.perOwner { return None; }
      total := total + 1;
      owners := owners[owner := Count(owners, owner) + 1];
      next := next + 1;
      var id := next;
      active := active[id := owner];
      var i := 0;
      ghost var before := waiting;
      assert keys[..0] == [];
      while i < |keys|
        modifies this`waiting
        invariant 0 <= i <= |keys|
        invariant waiting == Enlist(before, keys[..i], id)
      {
        assert keys[..i + 1][..i] == keys[..i];
        var key := keys[i];
        waiting := waiting[key := (if key in waiting then waiting[key] else []) + [id]];
        i := i + 1;
      }
      assert keys[..i] == keys;
      return Some(Holds.Hold(id, owner, keys));
    }

    /** `wake`. */
    method Wake(key: string)
      modifies this`permits
      ensures permits == old(permits) + WokenBy(Now(), key)
    {
      if key !in waiting { return; }
      var i := 0;
      while i < |waiting[key]|
        invariant 0 <= i <= |waiting[key]|
        invariant permits == old(permits) + (set id | id in waiting[key][..i])
      {
        assert waiting[key][..i + 1] == waiting[key][..i] + [waiting[key][i]];
        permits := permits + {waiting[key][i]};
        i := i + 1;
      }
      assert waiting[key][..i] == waiting[key];
    }

    /** `waiting_on`. */
    method WaitingOn(key: string) returns (b: bool)
      ensures (forall k :: k in waiting ==> waiting[k] != []) ==> b == (key in waiting)
      ensures b == (WokenBy(Now(), key) != {})
    {
      b := key in waiting && waiting[key] != [];
      if b { assert waiting[key][0] in WokenBy(Now(), key); }
    }

    /** `cancel_owner`: the lists are filtered first, then the removed holds are notified. */
    method CancelOwner(owner: string)
      modifies this
      ensures Now() == Cancelled(old(Now()), owner)
      ensures stopping == old(stopping)
      ensures permits == old(permits) + Removed(old(waiting), OwnedBy(old(active), owner), old(waiting).Keys)
    {
      hide Filtered, Removed;
      var ids := OwnedBy(active, owner);
      if ids == {} {
        NothingRemoved(waiting);
        return;
      }
      var kept, notified := FilterLists(waiting, ids);
      waiting := kept;
      total := if total >= |ids| then total - |ids| else 0;
      active := active - ids;
      owners := owners - {owner};
      permits := permits + notified;
    }

    /** `Drop for Hold`. */
    method Drop(hold: Hold)
      modifies this
      ensures Now() == Dropped(old(Now()), hold)
      ensures stopping == old(stopping) && permits == old(permits)
    {
      if hold.id !in active { return; }
      active := active - {hold.id};
      total := if total > 0 then total - 1 else 0;
      if hold.owner in owners {
        if owners[hold.owner] <= 1 {
          owners := owners - {hold.owner};
        } else {
          owners := owners[hold.owner := owners[hold.owner] - 1];
        }
      }
      var i := 0;
      ghost var before := waiting;
      assert hold.keys[..0] == [];
      while i < |hold.keys|
        modifies this`waiting
        invariant 0 <= i <= |hold.keys|
        invariant waiting == Delist(before, hold.keys[..i], hold.id)
      {
        assert hold.keys[..i + 1][..i] == hold.keys[..i];
        var key := hold.keys[i];
        if key in waiting {
          var list := Without(waiting[key], {hold.id});
          if list == [] { waiting := waiting - {key}; } else { waiting := waiting[key := list]; }
        }
        i := i + 1;
      }
      assert hold.keys[..i] == hold.keys;
    }
  }
}
