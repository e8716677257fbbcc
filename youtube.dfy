/**
 * `YouTubePlayerManager`: the embedded players of the navigation bar and their ready
 * flags. Whether an element with a given id exists in the page is an input (`present`),
 * and `stopVideo` calls are returned as the ordered list of ids they were made on.
 * The JavaScript `Map` of players is kept as its keys in insertion order, which is the
 * order `forEach` visits them.
 */
module YouTube {

  /** `playerIds`: the element ids that may hold a player. */
  const PlayerIds: seq<string> := ["gnbYoutube", "gnbGenYoutube"]

  ghost predicate NoDuplicates(s: seq<string>) {
    forall i, j :: 0 <= i < j < |s| ==> s[i] != s[j]
  }

  /**
   * The keys of `players` after visiting `ids` in order, registering each id whose
   * element is present; an id already registered keeps its place, as `Map.set` does.
   */
  function Register(players: seq<string>, ids: seq<string>, present: set<string>): seq<string>
    decreases |ids|
  {
    if ids == [] then players
    else
      var before := Register(players, ids[..|ids| - 1], present);
      var id := ids[|ids| - 1];
      if id in present && id !in before then before + [id] else before
  }

  /** Registration keeps the old players in front and adds exactly the present ids, once each. */
  lemma {:induction false} RegisterContents(players: seq<string>, ids: seq<string>, present: set<string>)
    requires NoDuplicates(players)
    ensures NoDuplicates(Register(players, ids, present))
    ensures |players| <= |Register(players, ids, present)|
    ensures Register(players, ids, present)[..|players|] == players
    ensures forall id :: id in Register(players, ids, present) <==> id in players || (id in ids && id in present)
    decreases |ids|
  {
    if ids != [] {
      RegisterContents(players, ids[..|ids| - 1], present);
      var before := Register(players, ids[..|ids| - 1], present);
      assert ids == ids[..|ids| - 1] + [ids[|ids| - 1]];
      var id := ids[|ids| - 1];
      if id in present && id !in before {
        assert (before + [id])[..|players|] == before[..|players|];
      }
      assert forall x :: x in ids <==> x in ids[..|ids| - 1] || x == id;
    }
  }

  /** Visiting one more id registers it when it is present and not yet registered. */
  lemma RegisterStep(players: seq<string>, ids: seq<string>, i: nat, present: set<string>)
    requires i < |ids|
    ensures var before := Register(players, ids[..i], present);
      Register(players, ids[..i + 1], present) ==
        if ids[i] in present && ids[i] !in before then before + [ids[i]] else before
    ensures forall x :: x in ids[..i + 1] <==> x in ids[..i] || x == ids[i]
  {
    assert ids[..i + 1][..i] == ids[..i];
    assert ids[..i + 1] == ids[..i] + [ids[i]];
  }

  /** The ready flags after visiting `ids` in order: each present id's flag is cleared. */
  function ClearReady(ready: map<string, bool>, ids: seq<string>, present: set<string>): map<string, bool>
    decreases |ids|
  {
    if ids == [] then ready
    else
      var before := ClearReady(ready, ids[..|ids| - 1], present);
      var id := ids[|ids| - 1];
      if id in present then before[id := false] else before
  }

  lemma ClearReadyStep(ready: map<string, bool>, ids: seq<string>, i: nat, present: set<string>)
    requires i < |ids|
    ensures var before := ClearReady(ready, ids[..i], present);
      ClearReady(ready, ids[..i + 1], present) == if ids[i] in present then before[ids[i] := false] else before
  {
    assert ids[..i + 1][..i] == ids[..i];
  }

  /** The visited present ids get a cleared flag; every other flag is left as it was. */
  lemma {:induction false} ClearReadyContents(ready: map<string, bool>, ids: seq<string>, present: set<string>)
    ensures var r := ClearReady(ready, ids, present);
      && (forall id :: id in r <==> id in ready || (id in ids && id in present))
      && (forall id :: id in r ==>
            if id in ids && id in present then !r[id] else id in ready && r[id] == ready[id])
    decreases |ids|
  {
    if ids != [] {
      var init := ids[..|ids| - 1];
      ClearReadyContents(ready, init, present);
      assert forall x :: x in ids <==> x in init || x == ids[|ids| - 1] by {
        assert ids == init + [ids[|ids| - 1]];
      }
    }
  }

  /** The registered ids whose ready flag is set, in `forEach` order. */
  function ReadyInOrder(players: seq<string>, ready: map<string, bool>): seq<string>
    decreases |players|
  {
    if players == [] then []
    else
      (if players[0] in ready && ready[players[0]] then [players[0]] else [])
        + ReadyInOrder(players[1..], ready)
  }

  /** `stopAll` reaches exactly the registered players that are ready, each once. */
  lemma {:induction false} ReadyInOrderExactly(players: seq<string>, ready: map<string, bool>)
    requires NoDuplicates(players)
    ensures forall id :: id in ReadyInOrder(players, ready) <==> id in players && id in ready && ready[id]
    ensures NoDuplicates(ReadyInOrder(players, ready))
    decreases |players|
  {
    if players != [] {
      ReadyInOrderExactly(players[1..], ready);
      assert forall id :: id in players <==> id == players[0] || id in players[1..];
      assert players[0] !in players[1..];
    }
  }

  lemma ReadyInOrderAppend(players: seq<string>, id: string, ready: map<string, bool>)
    ensures ReadyInOrder(players + [id], ready) ==
      ReadyInOrder(players, ready) + (if id in ready && ready[id] then [id] else [])
    decreases |players|
  {
    if players != [] {
      assert (players + [id])[1..] == players[1..] + [id];
      ReadyInOrderAppend(players[1..], id, ready);
    }
  }

  class YouTubePlayerManager {
    /** The keys of the `players` map, in insertion order. */
    var players: seq<string>
    var readyStates: map<string, bool>

    /** Only ids from `playerIds` are registered, once each, and every registered id has a ready flag. */
    ghost predicate Valid()
      reads this
    {
      && NoDuplicates(players)
      && (forall id :: id in players ==> id in PlayerIds)
      && (forall id :: id in readyStates <==> id in players)
    }

    constructor ()
      ensures Valid() && players == [] && readyStates == map[]
    {
      players := [];
      readyStates := map[];
    }

    /**
     * `initializePlayers`: every id of `playerIds` whose element is present is registered
     * with its ready flag cleared; the others are skipped.
     */
    method InitializePlayers(present: set<string>)
      requires Valid()
      modifies this
      ensures Valid()
      ensures players == Register(old(players), PlayerIds, present)
      ensures forall id :: id in players <==> id in old(players) || (id in PlayerIds && id in present)
      ensures readyStates == ClearReady(old(readyStates), PlayerIds, present)
    {
      ghost var p0, r0 := players, readyStates;
      var ids := PlayerIds;
      RegisterContents(p0, ids, present);
      for i := 0 to |ids|
        invariant players == Register(p0, ids[..i], present)
        invariant forall id :: id in readyStates <==> id in players
        invariant readyStates == ClearReady(r0, ids[..i], present)
      {
        RegisterContents(p0, ids[..i], present);
        var id := ids[i];
        RegisterStep(p0, ids, i, present);
        ClearReadyStep(r0, ids, i, present);
        if id in present {
          readyStates := readyStates[id := false];
          if id !in players {
            players := players + [id];
          }
        }
      }
      assert ids[..|ids|] == ids;
    }

    /** The player's `onReady` event: its flag is set. Only registered players have this callback. */
    method OnReady(id: string)
      requires Valid() && id in players
      modifies this
      ensures Valid() && players == old(players) && readyStates == old(readyStates)[id := true]
    {
      readyStates := readyStates[id := true];
    }

    /** `stopAll`: `stopVideo` is called on each ready player, in order; `stopped` lists them. */
    method StopAll() returns (stopped: seq<string>)
      requires Valid()
      ensures stopped == ReadyInOrder(players, readyStates)
      ensures forall id :: id in stopped <==> id in players && readyStates[id]
    {
      stopped := [];
      for i := 0 to |players|
        invariant stopped == ReadyInOrder(players[..i], readyStates)
      {
        assert players[..i + 1] == players[..i] + [players[i]];
        ReadyInOrderAppend(players[..i], players[i], readyStates);
        if readyStates[players[i]] {
          stopped := stopped + [players[i]];
        }
      }
      assert players[..|players|] == players;
      ReadyInOrderExactly(players, readyStates);
    }

    /** `stopPlayer(id)`: `stopVideo` is called only when `id` is registered and ready. */
    method StopPlayer(id: string) returns (stopped: bool)
      requires Valid()
      ensures stopped <==> id in players && readyStates[id]
    {
      stopped := id in readyStates && readyStates[id];
    }
  }
}
