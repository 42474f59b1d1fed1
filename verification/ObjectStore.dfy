/** The object store as one client sees it: conditional writes and deletes that
    can fail, with other clients at work between any two calls. Every write gets
    a version that was never used before, and no object has version 0. */
module ObjectStore {

  type Key = string
  type Contents<B> = map<Key, Object<B>>

  datatype Object<B> = Object(version: nat, body: B)

  datatype GetReply<B> = Found(obj: Object<B>) | NotFound | GetFailed
  datatype HeadReply = Present(version: nat) | Absent | HeadFailed
  datatype PutReply = Stored(version: nat) | AlreadyExists | VersionMismatch | Missing | PutFailed
  datatype DeleteReply = Deleted | NothingThere | VersionChanged | DeleteFailed

  /** A change this client made to the store. */
  datatype Effect<B> = Wrote(key: Key, body: B) | Removed(key: Key)

  class Bucket<B(==, !new)> {
    var objects: Contents<B>
    var issued: nat                    // every version in use is below this
    ghost var effects: seq<Effect<B>>     // what this client changed, oldest first
    ghost var moments: seq<Contents<B>>   // the contents at each instant the client called
    ghost var failures: nat               // how many of its calls failed

    ghost predicate Valid()
      reads this
    {
      issued > 0 && forall k :: k in objects ==> 0 < objects[k].version < issued
    }

    constructor ()
      ensures Valid() && effects == [] && moments == [] && failures == 0
    {
      objects, issued := map[], 1;
      effects, moments, failures := [], [], 0;
    }

    /** Anything the other clients do between two calls of this one. */
    method Interfere()
      requires Valid()
      modifies this`objects, this`issued, this`moments
      ensures Valid() && old(issued) <= issued
      ensures forall k :: k in objects && objects[k].version < old(issued)
                          ==> k in old(objects) && old(objects[k]) == objects[k]
      ensures moments == old(moments) + [objects]
    {
      var objects': Contents<B>, issued': nat :|
        && issued <= issued'
        && (forall k :: k in objects' ==> 0 < objects'[k].version < issued')
        && (forall k :: k in objects' && objects'[k].version < issued
                        ==> k in objects && objects[k] == objects'[k]);
      objects, issued := objects', issued';
      moments := moments + [objects];
    }

    /** Exactly the calls that fail are counted as failures. */
    twostate predicate Counted(failed: bool)
      reads this
    {
      failures == old(failures) + if failed then 1 else 0
    }

    method Head(key: Key) returns (r: HeadReply)
      requires Valid()
      modifies this
      ensures Counted(r.HeadFailed?) && |moments| == |old(moments)| + 1
      ensures Valid() && effects == old(effects) && Later()
      ensures r.Present? ==> key in Now() && Now()[key].version == r.version
      ensures r.Absent? ==> key !in Now()
    {
      Interfere();
      var fails: bool := *;
      if fails {
        failures := failures + 1;
        r := HeadFailed;
      } else if key in objects {
        r := Present(objects[key].version);
      } else {
        r := Absent;
      }
    }

    method Get(key: Key) returns (r: GetReply<B>)
      requires Valid()
      modifies this
      ensures Counted(r.GetFailed?)
      ensures Valid() && effects == old(effects) && Later()
      ensures r.Found? ==> key in Now() && Now()[key] == r.obj && r.obj.version < issued && Now() == objects
      ensures r.NotFound? ==> key !in Now()
      ensures |moments| == |old(moments)| + 1
    {
      Interfere();
      var fails: bool := *;
      if fails {
        failures := failures + 1;
        r := GetFailed;
      } else if key in objects {
        r := Found(objects[key]);
      } else {
        r := NotFound;
      }
    }

    /** The contents at the latest instant. */
    ghost function Now(): Contents<B>
      reads this
      requires moments != []
    {
      moments[|moments| - 1]
    }

    /** Time has passed since the call began, and no instant is forgotten. */
    twostate predicate Later()
      reads this
    {
      old(moments) < moments && old(issued) <= issued
    }

    /** A call sees one instant; if it writes, the next one differs by the write, with a new version. */
    twostate predicate OneInstant(key: Key, body: B)
      reads this
    {
      && |moments| == |old(moments)| + 1 + |effects| - |old(effects)|
      && (effects != old(effects) ==>
            && |moments| >= 2 && key in Now() && 0 < Now()[key].version
            && Now() == moments[|moments| - 2][key := Object(Now()[key].version, body)])
    }

    method PutIfAbsent(key: Key, body: B) returns (r: PutReply)
      requires Valid()
      modifies this
      ensures Counted(r.PutFailed?)
      ensures Valid() && Later()
      ensures r.Stored? || r.AlreadyExists? || r.PutFailed?
      ensures r.Stored? ==> effects == old(effects) + [Wrote(key, body)] && Now() == objects
      ensures r.Stored? ==> key in objects && objects[key] == Object(r.version, body) && r.version >= old(issued)
      ensures effects != old(effects) ==> |moments| - 2 >= |old(moments)| && key !in moments[|moments| - 2]
      ensures OneInstant(key, body)
      ensures r.AlreadyExists? ==> effects == old(effects) && key in Now()
      ensures r.PutFailed? ==> effects == old(effects) || effects == old(effects) + [Wrote(key, body)]
    {
      Interfere();
      var refused, lost: bool := *, *;
      if refused {
        r := PutFailed;
      } else if key in objects {
        r := AlreadyExists;
      } else {
        Store(key, body);
        r := if lost then PutFailed else Stored(issued - 1);
      }
      if r.PutFailed? { failures := failures + 1; }
    }

    method PutIfVersionMatches(key: Key, expected: nat, body: B) returns (r: PutReply)
      requires Valid()
      modifies this
      ensures Counted(r.PutFailed?)
      ensures Valid() && Later()
      ensures !r.AlreadyExists?
      ensures OneInstant(key, body)
      ensures r.Stored? ==> effects == old(effects) + [Wrote(key, body)] && Now() == objects
      ensures r.Stored? ==> key in objects && objects[key] == Object(r.version, body) && r.version >= old(issued)
      ensures effects != old(effects) ==> |moments| - 2 >= |old(moments)|
                                          && key in moments[|moments| - 2] && moments[|moments| - 2][key].version == expected
      ensures effects != old(effects) && expected < old(issued)
              ==> key in old(objects) && moments[|moments| - 2][key] == old(objects[key])
      ensures r.VersionMismatch? || r.Missing?
              ==> effects == old(effects) && (key in Now() ==> Now()[key].version != expected)
      ensures r.PutFailed? ==> effects == old(effects) || effects == old(effects) + [Wrote(key, body)]
    {
      Interfere();
      var refused, lost, distinguishes: bool := *, *, *;
      if refused {
        r := PutFailed;
      } else if key !in objects {
        r := if distinguishes then Missing else VersionMismatch;
      } else if objects[key].version != expected {
        r := VersionMismatch;
      } else {
        Store(key, body);
        r := if lost then PutFailed else Stored(issued - 1);
      }
      if r.PutFailed? { failures := failures + 1; }
    }

    method DeleteIfVersionMatches(key: Key, expected: nat) returns (r: DeleteReply)
      requires Valid()
      modifies this
      ensures Counted(r.DeleteFailed?)
      ensures Valid() && Later()
      ensures |moments| == |old(moments)| + 1 + |effects| - |old(effects)|
      ensures effects != old(effects) ==> |moments| >= 2 && Now() == moments[|moments| - 2] - {key}
      ensures r.Deleted? ==> effects == old(effects) + [Removed(key)] && key !in Now()
      ensures r.NothingThere? ==> effects == old(effects) && key !in Now()
      ensures r.VersionChanged? ==> effects == old(effects) && key in Now() && Now()[key].version != expected
      ensures r.DeleteFailed? ==> effects == old(effects) || effects == old(effects) + [Removed(key)]
      ensures effects != old(effects) ==> |moments| - 2 >= |old(moments)|
                                          && key in moments[|moments| - 2] && moments[|moments| - 2][key].version == expected
    {
      Interfere();
      var refused, lost: bool := *, *;
      if refused {
        r := DeleteFailed;
      } else if key !in objects {
        r := NothingThere;
      } else if objects[key].version != expected {
        r := VersionChanged;
      } else {
        objects := objects - {key};
        effects := effects + [Removed(key)];
        moments := moments + [objects];
        r := if lost then DeleteFailed else Deleted;
      }
      if r.DeleteFailed? { failures := failures + 1; }
    }

    /** The effect of an accepted write. */
    method Store(key: Key, body: B)
      requires Valid()
      modifies this`objects, this`issued, this`effects, this`moments
      ensures Valid() && issued == old(issued) + 1
      ensures objects == old(objects)[key := Object(old(issued), body)]
      ensures effects == old(effects) + [Wrote(key, body)]
      ensures moments == old(moments) + [objects]
    {
      objects := objects[key := Object(issued, body)];
      issued := issued + 1;
      effects := effects + [Wrote(key, body)];
      moments := moments + [objects];
    }
  }
}
