/**
 * The game manager of Assets/Scripts/GameManager.cs: the local player is spawned at the player
 * spawns in round-robin order, once the client is in a room.
 *
 * Photon is outside the model: whether the client is connected is an input to Start, and the
 * requests the manager makes of the network (connect, join or create the room) are recorded in
 * order. PhotonNetwork.Instantiate is represented by the pose the player is instantiated at.
 */
module Game {
  import opened Wrappers
  import opened Portals

  /** A request made of the network layer. */
  datatype NetworkRequest = ConnectUsingSettings | JoinOrCreateRoom(roomName: string)

  /** The room every client joins. */
  const TestRoom := "Test Room"

  /** The spawn index after `index`, wrapping to 0 at `count`. */
  function NextSpawnIndex(index: int, count: nat): int {
    if index + 1 >= count then 0 else index + 1
  }

  /** The spawn index after k spawns from a fresh manager. */
  function SpawnIndexAfter(k: nat, count: nat): int {
    if k == 0 then 0 else NextSpawnIndex(SpawnIndexAfter(k - 1, count), count)
  }

  /** The round-robin index after k spawns is k modulo the number of spawns, so it stays in range. */
  lemma {:induction false} SpawnIndexAfterIsModulo(k: nat, count: nat)
    requires count > 0
    ensures SpawnIndexAfter(k, count) == k % count
    ensures 0 <= SpawnIndexAfter(k, count) < count
  {
    if k > 0 {
      SpawnIndexAfterIsModulo(k - 1, count);
      var q, i := (k - 1) / count, (k - 1) % count;
      assert k == q * count + i + 1;
      if i + 1 == count {
        assert k == (q + 1) * count + 0;
        ModuloOfMultiplePlus(q + 1, 0, count);
      } else {
        ModuloOfMultiplePlus(q, i + 1, count);
      }
    }
  }

  /** A multiple of n plus a remainder below n leaves that remainder. */
  lemma ModuloOfMultiplePlus(q: int, r: int, n: int)
    requires n > 0 && 0 <= r < n
    ensures (q * n + r) % n == r
  {
    var x := q * n + r;
    assert x == (x / n) * n + x % n;
    assert (q - x / n) * n == x % n - r;
    SmallMultipleIsZero(q - x / n, n);
  }

  /** The only multiple of n strictly between -n and n is 0. */
  lemma SmallMultipleIsZero(d: int, n: int)
    requires n > 0 && -n < d * n < n
    ensures d == 0
  {
  }

  class GameManager {
    /** The possible player spawns. */
    const playerSpawns: seq<Pose>
    var playerSpawnIndex: int
    /** The local player, by the pose it was instantiated at; None for the source's null. */
    var localPlayer: Option<Pose>
    /** The requests made of the network, in order. */
    var requests: seq<NetworkRequest>
    /** The number of players spawned so far. */
    ghost var spawned: nat

    /** The spawn index is the number of spawns so far, round-robin over the spawns. */
    ghost predicate Valid()
      reads this
    {
      playerSpawnIndex == SpawnIndexAfter(spawned, |playerSpawns|)
    }

    constructor (playerSpawns: seq<Pose>)
      ensures Valid()
      ensures this.playerSpawns == playerSpawns && playerSpawnIndex == 0
      ensures localPlayer == None && requests == [] && spawned == 0
    {
      this.playerSpawns := playerSpawns;
      playerSpawnIndex, localPlayer, requests := 0, None, [];
      spawned := 0;
    }

    /** Start: an unconnected client asks to connect; a connected one spawns straight away. */
    method Start(isConnected: bool)
      requires Valid()
      modifies this
      ensures Valid()
      ensures !isConnected ==>
                requests == old(requests) + [ConnectUsingSettings]
                && localPlayer == old(localPlayer) && spawned == old(spawned)
                && playerSpawnIndex == old(playerSpawnIndex)
      ensures isConnected ==> requests == old(requests) && Spawned(old(spawned), old(localPlayer))
    {
      if !isConnected {
        requests := requests + [ConnectUsingSettings];
      } else {
        StartNetworked();
      }
    }

    /** OnConnectedToMaster: the client asks to join, or create, the test room. */
    method OnConnectedToMaster()
      modifies this`requests
      ensures requests == old(requests) + [JoinOrCreateRoom(TestRoom)]
    {
      requests := requests + [JoinOrCreateRoom(TestRoom)];
    }

    /** OnJoinedRoom: the local player is spawned. */
    method OnJoinedRoom()
      requires Valid()
      modifies this`playerSpawnIndex, this`localPlayer, this`spawned
      ensures Valid()
      ensures Spawned(old(spawned), old(localPlayer))
    {
      StartNetworked();
    }

    /**
     * The outcome of StartNetworked from `before` spawns: with spawns, the local player is the
     * one instantiated at spawn number `before` modulo their count, and the count goes up by
     * one; with none, reading the array throws and nothing changes.
     */
    ghost predicate Spawned(before: nat, player: Option<Pose>)
      reads this
    {
      if |playerSpawns| == 0 then spawned == before && localPlayer == player
      else spawned == before + 1 && localPlayer == Some(playerSpawns[before % |playerSpawns|])
    }

    /**
     * StartNetworked: the player is instantiated at the current spawn, and the index moves to
     * the next spawn, back to the first after the last.
     */
    method StartNetworked()
      requires Valid()
      modifies this`playerSpawnIndex, this`localPlayer, this`spawned
      ensures Valid()
      ensures Spawned(old(spawned), old(localPlayer))
      ensures |playerSpawns| > 0 ==>
                0 <= playerSpawnIndex < |playerSpawns|
                && playerSpawnIndex == NextSpawnIndex(old(playerSpawnIndex), |playerSpawns|)
    {
      if |playerSpawns| == 0 {
        return;
      }
      SpawnIndexAfterIsModulo(spawned, |playerSpawns|);
      var playerSpawn := playerSpawns[playerSpawnIndex];
      playerSpawnIndex := playerSpawnIndex + 1;
      if playerSpawnIndex >= |playerSpawns| {
        playerSpawnIndex := 0;
      }
      spawned := spawned + 1;
      SpawnIndexAfterIsModulo(spawned, |playerSpawns|);
      localPlayer := Some(playerSpawn);
    }
  }
}
