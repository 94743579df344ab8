// d_loop.c: when commands are made, received and run.
module DLoop {

  const BACKUPTICS: nat := 128
  const NET_MAXPLAYERS: nat := 8
  const MAX_LEAD: nat := 9        // tics made ahead of the one that is run, at most

  // ticcmd_t; `rest` is what duplication leaves alone.
  datatype Cmd = Cmd(chatchar: int, buttons: bv8, rest: int)

  // ticcmd_set_t
  datatype TicSet = TicSet(cmds: seq<Cmd>, ingame: seq<bool>)

  predicate FullSet(s: TicSet) {
    |s.cmds| == |s.ingame| == NET_MAXPLAYERS
  }

  // What TicdupSquash leaves of a command: no chat, and no special button.
  function Squash(c: Cmd): Cmd {
    c.(chatchar := 0, buttons := if c.buttons & 0x80 != 0 then 0 else c.buttons)
  }

  // It leaves alone exactly the commands without either, and all others become such.
  lemma SquashOnce(c: Cmd)
    ensures Squash(Squash(c)) == Squash(c) && Squash(c).rest == c.rest
    ensures Squash(c) == c <==> c.chatchar == 0 && c.buttons & 0x80 == 0
    ensures c.buttons & 0x80 == 0 ==> Squash(c).buttons == c.buttons
  {}

  // What is run for a command: once as it was built, and then squashed.
  function Repeated(c: Cmd, n: nat): (r: seq<Cmd>)
    ensures |r| == n
  {
    seq(n, i requires 0 <= i < n => if i == 0 then c else Squash(c))
  }

  lemma DivTic(tic: nat, dup: nat, i: nat)
    requires dup > 0 && i < dup
    ensures (tic * dup + i) / dup == tic
  {
    var q := (tic * dup + i) / dup;
    assert q * dup <= tic * dup + i < (q + 1) * dup;
    Less(q, tic + 1, dup);
    Less(tic, q + 1, dup);
  }

  lemma Less(a: nat, b: nat, c: nat)
    requires a * c < b * c
    ensures a < b
  {
    if a >= b {
      Mono(b, a, c);
    }
  }

  lemma Mono(a: nat, b: nat, c: nat)
    requires a <= b
    ensures a * c <= b * c
  {
    assert b * c == a * c + (b - a) * c;
  }

  // i of the runs of a tic are done.
  predicate Runs(gametic: nat, tic: nat, dup: nat, i: nat) {
    gametic == tic * dup + i
  }

  lemma RunsDiv(gametic: nat, tic: nat, dup: nat, i: nat)
    requires Runs(gametic, tic, dup, i) && i < dup
    ensures gametic / dup == tic && Runs(gametic + 1, tic, dup, i + 1)
  {
    DivTic(tic, dup, i);
  }

  lemma RunsCarry(gametic: nat, tic: nat, dup: nat)
    requires Runs(gametic, tic, dup, dup)
    ensures Runs(gametic, tic + 1, dup, 0)
  {}

  // Two tics that are close do not share a slot.
  lemma DifferentSlots(a: nat, b: nat)
    requires a < b < a + BACKUPTICS
    ensures a % BACKUPTICS != b % BACKUPTICS
  {}

  // SinglePlayerClear
  function SinglePlayer(s: TicSet, localPlayer: nat): (r: TicSet)
    requires FullSet(s)
    ensures FullSet(r) && r.cmds == s.cmds
    ensures forall i | 0 <= i < NET_MAXPLAYERS :: r.ingame[i] == (i == localPlayer && s.ingame[i])
  {
    TicSet(s.cmds, seq(NET_MAXPLAYERS, i requires 0 <= i < NET_MAXPLAYERS => i == localPlayer && s.ingame[i]))
  }

  // TicdupSquash
  function SquashSet(s: TicSet): (r: TicSet)
    requires FullSet(s)
    ensures FullSet(r) && r.ingame == s.ingame
    ensures forall i | 0 <= i < NET_MAXPLAYERS :: r.cmds[i] == Squash(s.cmds[i])
  {
    TicSet(seq(NET_MAXPLAYERS, i requires 0 <= i < NET_MAXPLAYERS => Squash(s.cmds[i])), s.ingame)
  }

  function Min(a: int, b: int): int {
    if a < b then a else b
  }

  function Max(a: int, b: int): int {
    if a < b then b else a
  }

  class Loop {
    const ticdup: nat
    const newSync: bool
    const localPlayer: nat
    const ticdata: array<TicSet>
    var connected: bool             // net_client_connected
    var singletics: bool
    var maketic: nat
    var recvtic: nat
    var gametic: nat
    var skiptics: int
    var lasttime: int
    var oldEntertics: int
    var localPlayerInGame: seq<bool>
    var frameon: int
    var frameskip: seq<bool>
    var oldNetTics: int
    ghost var tic: nat              // gametic / ticdup
    ghost var everConnected: bool
    ghost var made: seq<Cmd>        // every local command, in the order of making
    ghost var ran: seq<seq<Cmd>>    // for every tic, the local commands as they were run

    constructor (ticdup: nat, newSync: bool, localPlayer: nat, connected: bool, singletics: bool)
      requires ticdup > 0 && localPlayer < NET_MAXPLAYERS
      ensures Valid() && this.ticdup == ticdup && this.newSync == newSync && everConnected == connected
      ensures fresh(ticdata) && made == [] && ran == []
    {
      this.ticdup, this.newSync, this.localPlayer := ticdup, newSync, localPlayer;
      this.connected, this.singletics, everConnected := connected, singletics, connected;
      var empty := TicSet(seq(NET_MAXPLAYERS, _ => Cmd(0, 0, 0)), seq(NET_MAXPLAYERS, _ => false));
      ticdata := new TicSet[BACKUPTICS](_ => empty);
      maketic, recvtic, gametic, skiptics, lasttime, oldEntertics := 0, 0, 0, 0, 0, 0;
      localPlayerInGame, frameon := seq(NET_MAXPLAYERS, _ => false), 0;
      frameskip, oldNetTics := [false, false, false, false], 0;
      tic, made, ran := 0, [], [];
    }

    // A slot of the ring holds what was made for its tic.
    ghost predicate Holds(t: nat)
      requires ticdata.Length == BACKUPTICS && localPlayer < NET_MAXPLAYERS && t < |made|
      reads ticdata, this`made
    {
      var s := ticdata[t % BACKUPTICS];
      FullSet(s) && s.cmds[localPlayer] == made[t] && s.ingame[localPlayer]
    }

    ghost predicate Ring()
      reads this`tic, this`made, ticdata
    {
      && ticdup > 0 && localPlayer < NET_MAXPLAYERS && ticdata.Length == BACKUPTICS
      && (forall i | 0 <= i < BACKUPTICS :: FullSet(ticdata[i]))
      && (forall t | tic <= t < |made| :: Holds(t))
    }

    // The counters keep their order, and the lead its bound.
    ghost predicate Counters()
      reads this`maketic, this`recvtic, this`gametic, this`tic, this`made, this`connected, this`everConnected
    {
      && ticdup > 0 && Runs(gametic, tic, ticdup, 0) && maketic == |made|
      && tic <= maketic <= tic + MAX_LEAD && (connected ==> tic <= recvtic && everConnected)
      && (newSync && !everConnected ==> maketic <= tic + 3)
      && (!newSync ==> maketic <= tic + 5)
    }

    // Every command whose tic is over was run as often as it should.
    ghost predicate History()
      reads this`tic, this`made, this`ran
    {
      |ran| == tic <= |made| && forall t | 0 <= t < tic :: ran[t] == Repeated(made[t], ticdup)
    }

    ghost predicate Valid()
      reads this`maketic, this`recvtic, this`gametic, this`tic, this`made, this`connected, this`everConnected, this`ran,
            this`localPlayerInGame, this`frameskip, ticdata
    {
      Ring() && Counters() && History() && |localPlayerInGame| == NET_MAXPLAYERS && |frameskip| == 4
    }

    // How many tics may be made ahead.
    function Limit(): nat
      reads this`connected
    {
      if !newSync then 5 else if connected then MAX_LEAD else 3
    }

    // BuildNewTic, when this is no drone.
    method BuildNewTic() returns (built: bool)
      requires Valid()
      modifies this`maketic, this`made, ticdata
      ensures Valid() && old(made) <= made
      ensures built == (old(maketic) < tic + Limit()) && maketic == old(maketic) + (if built then 1 else 0)
    {
      hide Runs;
      RunsDiv(gametic, tic, ticdup, 0);
      var gameticdiv := gametic / ticdup;
      if newSync {
        if !connected && maketic - gameticdiv > 2 {
          return false;
        }
        if maketic - gameticdiv > 8 {
          return false;
        }
      } else {
        if maketic - gameticdiv >= 5 {
          return false;
        }
      }
      var cmd: Cmd := *;   // BuildTiccmd
      Store(cmd);
      built := true;
    }

    // Its stores into the ring.
    method Store(cmd: Cmd)
      requires Ring() && maketic == |made| && tic <= maketic < tic + MAX_LEAD
      modifies this`maketic, this`made, ticdata
      ensures Ring() && maketic == old(maketic) + 1 && made == old(made) + [cmd]
    {
      var slot := maketic % BACKUPTICS;
      var s := ticdata[slot];
      forall t | tic <= t < |made| ensures t % BACKUPTICS != slot {
        DifferentSlots(t, maketic);
      }
      assert forall t | tic <= t < |made| :: Holds(t);
      ticdata[slot] := TicSet(s.cmds[localPlayer := cmd], s.ingame[localPlayer := true]);
      made := made + [cmd];
      maketic := maketic + 1;
      forall t | tic <= t < |made| ensures Holds(t) {
        if t < |made| - 1 {
          assert old(Holds(t));
        }
      }
    }

    // D_ReceiveTic: the commands of the other players go into the slot of their tic; our own are not
    // overwritten.
    method ReceiveTic(received: TicSet)
      requires Valid() && FullSet(received)
      modifies this`recvtic, ticdata
      ensures Valid() && recvtic == old(recvtic) + 1
      ensures forall k | 0 <= k < BACKUPTICS :: FullSet(ticdata[k]) && forall i | 0 <= i < NET_MAXPLAYERS ::
        var from := if k == old(recvtic) % BACKUPTICS && i != localPlayer then received else old(ticdata[k]);
        ticdata[k].cmds[i] == from.cmds[i] && ticdata[k].ingame[i] == from.ingame[i]
    {
      hide Runs, Loop.History;
      var slot := recvtic % BACKUPTICS;
      var s := ticdata[slot];
      assert forall t | tic <= t < |made| :: Holds(t);
      var i := 0;
      var cmds, ingame := s.cmds, s.ingame;
      while i < NET_MAXPLAYERS
        invariant 0 <= i <= NET_MAXPLAYERS && |cmds| == |ingame| == NET_MAXPLAYERS
        invariant forall k | 0 <= k < NET_MAXPLAYERS ::
          var from := if k < i && k != localPlayer then received else s;
          cmds[k] == from.cmds[k] && ingame[k] == from.ingame[k]
      {
        if i != localPlayer {
          cmds, ingame := cmds[i := received.cmds[i]], ingame[i := received.ingame[i]];
        }
        i := i + 1;
      }
      ticdata[slot] := TicSet(cmds, ingame);
      recvtic := recvtic + 1;
      forall t | tic <= t < |made| ensures Holds(t) {
        assert old(Holds(t));
      }
    }

    // NET_CL_Run: some tics arrive, and the connection may be lost.
    method RunNetwork(arrived: seq<TicSet>, lost: bool)
      requires Valid() && forall s | s in arrived :: FullSet(s)
      modifies this`recvtic, this`connected, ticdata
      ensures Valid() && recvtic == old(recvtic) + |arrived| && connected == (old(connected) && !lost)
    {
      var i := 0;
      while i < |arrived|
        invariant 0 <= i <= |arrived| && Valid() && recvtic == old(recvtic) + i && connected == old(connected)
      {
        ReceiveTic(arrived[i]);
        i := i + 1;
      }
      if lost {
        connected := false;
      }
    }

    // The tics that are to be made of `newtics` that have passed, when `skip` are to be skipped, and
    // how many are to be skipped after that.
    static function Left(newtics: int, skip: int): int {
      if skip <= newtics then newtics - skip else 0
    }

    static function StillSkipped(newtics: int, skip: int): int {
      if skip <= newtics then 0 else skip - newtics
    }

    // How many commands there are after an update at the time `nowtime`.
    ghost function MadeAt(nowtime: int): int
      reads this`maketic, this`tic, this`connected, this`lasttime, this`skiptics
    {
      Max(maketic, Min(maketic + Left(nowtime - lasttime, skiptics), tic + Limit()))
    }

    // NetUpdate, at the time that GetAdjustedTime() / ticdup gives, and with what the network does.
    method NetUpdate(nowtime: int, arrived: seq<TicSet>, lost: bool)
      requires Valid() && forall s | s in arrived :: FullSet(s)
      modifies this`maketic, this`recvtic, this`connected, this`skiptics, this`lasttime, this`made, ticdata
      ensures Valid() && old(made) <= made
      ensures singletics ==>
        && maketic == old(maketic) && recvtic == old(recvtic) && connected == old(connected)
        && skiptics == old(skiptics) && lasttime == old(lasttime) && ticdata[..] == old(ticdata[..])
      ensures !singletics ==>
        && recvtic == old(recvtic) + |arrived| && connected == (old(connected) && !lost)
        && lasttime == nowtime && skiptics == StillSkipped(nowtime - old(lasttime), old(skiptics))
        && maketic == Max(old(maketic),
                          Min(old(maketic) + Left(nowtime - old(lasttime), old(skiptics)), tic + Limit()))
      ensures !singletics && !old(connected) ==> maketic == old(MadeAt(nowtime))
    {
      hide Runs, Loop.Ring, Loop.History, Loop.Counters;
      if singletics {
        return;
      }
      RunNetwork(arrived, lost);
      var newtics := nowtime - lasttime;
      lasttime := nowtime;
      if skiptics <= newtics {
        newtics := newtics - skiptics;
        skiptics := 0;
      } else {
        skiptics := skiptics - newtics;
        newtics := 0;
      }
      BuildTics(newtics);
    }

    // The same with an arbitrary time and network.
    method UpdateAnyhow()
      requires Valid()
      modifies this`maketic, this`recvtic, this`connected, this`skiptics, this`lasttime, this`made, ticdata
      ensures Valid() && recvtic >= old(recvtic) && (connected ==> old(connected)) && old(made) <= made
    {
      hide Runs, Loop.Ring, Loop.History, Loop.Counters;
      var nowtime: int, lost: bool, arrived: seq<TicSet> := *, *, *;
      if i :| 0 <= i < |arrived| && !FullSet(arrived[i]) {
        arrived := [];
      }
      NetUpdate(nowtime, arrived, lost);
    }

    // Its last loop.
    method BuildTics(newtics: int)
      requires Valid()
      modifies this`maketic, this`made, ticdata
      ensures Valid() && old(made) <= made
      ensures maketic == Max(old(maketic), Min(old(maketic) + newtics, tic + Limit()))
    {
      var i := 0;
      while i < newtics
        invariant 0 <= i && (i == 0 || i <= newtics) && Valid() && old(made) <= made
        invariant maketic == old(maketic) + i && (i > 0 ==> maketic <= tic + Limit())
      {
        var built := BuildNewTic();
        if !built {
          break;
        }
        i := i + 1;
      }
    }

    // GetLowTic
    function GetLowTic(): (low: nat)
      requires Counters()
      reads this`maketic, this`recvtic, this`connected, this`gametic, this`tic, this`made, this`everConnected
      ensures tic <= low <= maketic && (connected ==> low <= recvtic)
    {
      if connected && recvtic < maketic then recvtic else maketic
    }

    // The first player in the game, -1 if there is none.
    method KeyPlayer() returns (keyplayer: int)
      requires |localPlayerInGame| == NET_MAXPLAYERS
      ensures -1 <= keyplayer < NET_MAXPLAYERS
      ensures keyplayer >= 0 ==> localPlayerInGame[keyplayer]
      ensures forall i | 0 <= i < (if keyplayer >= 0 then keyplayer else NET_MAXPLAYERS) :: !localPlayerInGame[i]
    {
      var i := 0;
      while i < NET_MAXPLAYERS
        invariant 0 <= i <= NET_MAXPLAYERS && forall k | 0 <= k < i :: !localPlayerInGame[k]
      {
        if localPlayerInGame[i] {
          return i;
        }
        i := i + 1;
      }
      return -1;
    }

    // The first player in the game is another one.
    predicate Follows()
      requires |localPlayerInGame| == NET_MAXPLAYERS
      reads this`localPlayerInGame
    {
      exists i | 0 <= i < NET_MAXPLAYERS && i != localPlayer ::
        localPlayerInGame[i] && forall k | 0 <= k < i :: !localPlayerInGame[k]
    }

    // OldNetSync: who does not follow another player keeps the time.  Who does goes one tic faster
    // unless ahead of what was received, and skips one if he was ahead in the last four calls.
    method OldNetSync()
      requires Valid()
      modifies this`frameon, this`lasttime, this`frameskip, this`oldNetTics, this`skiptics
      ensures Valid() && frameon == old(frameon) + 1
      ensures !Follows() ==> lasttime == old(lasttime) && skiptics == old(skiptics) && frameskip == old(frameskip)
      ensures Follows() ==>
        && lasttime == old(lasttime) - (if maketic <= recvtic then 1 else 0)
        && oldNetTics == maketic && frameskip == old(frameskip)[frameon % 4 := old(oldNetTics) > recvtic]
        && skiptics == if forall k | 0 <= k < 4 :: frameskip[k] then 1 else old(skiptics)
    {
      hide Runs, Loop.Ring, Loop.History, Loop.Counters;
      frameon := frameon + 1;
      var keyplayer := KeyPlayer();
      if keyplayer < 0 {
        return;
      }
      if localPlayer != keyplayer {
        if maketic <= recvtic {
          lasttime := lasttime - 1;
        }
        frameskip := frameskip[frameon % 4 := oldNetTics > recvtic];
        oldNetTics := maketic;
        if frameskip[0] && frameskip[1] && frameskip[2] && frameskip[3] {
          skiptics := 1;
        }
      }
    }

    // The loop over ticdup in TryRunTics.
    method RunDuplicates(slot: nat, lowtic: nat, ghost cmd: Cmd) returns (ghost group: seq<Cmd>)
      requires ticdup > 0 && ticdata.Length == BACKUPTICS && localPlayer < NET_MAXPLAYERS && slot < BACKUPTICS
      requires Runs(gametic, tic, ticdup, 0) && tic < lowtic
      requires FullSet(ticdata[slot]) && ticdata[slot].cmds[localPlayer] == cmd && ticdata[slot].ingame[localPlayer]
      modifies this`gametic, this`localPlayerInGame, ticdata
      ensures Runs(gametic, tic, ticdup, ticdup) && group == Repeated(cmd, ticdup)
          && |localPlayerInGame| == NET_MAXPLAYERS
      ensures localPlayerInGame == old(ticdata[slot].ingame)
      ensures FullSet(ticdata[slot]) && forall k | 0 <= k < BACKUPTICS && k != slot :: ticdata[k] == old(ticdata[k])
    {
      hide Runs;
      group := [];
      var i := 0;
      while i < ticdup
        invariant 0 <= i <= ticdup && Runs(gametic, tic, ticdup, i) && |group| == i
        invariant i > 0 ==> localPlayerInGame == old(ticdata[slot].ingame)
        invariant FullSet(ticdata[slot]) && ticdata[slot].ingame == old(ticdata[slot].ingame)
        invariant ticdata[slot].cmds[localPlayer] == if i == 0 then cmd else Squash(cmd)
        invariant forall k | 0 <= k < i :: group[k] == if k == 0 then cmd else Squash(cmd)
        invariant forall k | 0 <= k < BACKUPTICS && k != slot :: ticdata[k] == old(ticdata[k])
      {
        RunsDiv(gametic, tic, ticdup, i);
        if gametic / ticdup > lowtic {
          assert false;   // I_Error: gametic>lowtic
        }
        localPlayerInGame := ticdata[slot].ingame;
        group := group + [ticdata[slot].cmds[localPlayer]];   // RunTic
        gametic := gametic + 1;
        SquashOnce(cmd);
        ticdata[slot] := SquashSet(ticdata[slot]);
        i := i + 1;
      }
      assert group == Repeated(cmd, ticdup);
    }

    // One round of the last loop of TryRunTics: the set of this tic is run ticdup times.
    method RunSet(lowtic: nat)
      requires Valid() && tic < lowtic <= maketic && (connected ==> lowtic <= recvtic)
      modifies this`gametic, this`localPlayerInGame, this`tic, this`ran, ticdata
      ensures Valid() && tic == old(tic) + 1
      // We are in the game, and alone when not connected.
      ensures localPlayerInGame[localPlayer]
      ensures !connected ==> forall i | 0 <= i < NET_MAXPLAYERS && i != localPlayer :: !localPlayerInGame[i]
    {
      hide Runs;
      RunsDiv(gametic, tic, ticdup, 0);
      var slot := gametic / ticdup % BACKUPTICS;
      assert forall t | tic <= t < |made| :: Holds(t);
      ghost var cmd := made[tic];
      assert Holds(tic);
      if !connected {
        ticdata[slot] := SinglePlayer(ticdata[slot], localPlayer);
      }
      ghost var group := RunDuplicates(slot, lowtic, cmd);
      RunsCarry(gametic, tic, ticdup);
      tic, ran := tic + 1, ran + [group];
      forall t | tic <= t < |made| ensures Holds(t) {
        DifferentSlots(tic - 1, t);
        assert old(Holds(t));
      }
    }

    // The wait of TryRunTics for tics to run.  It gives up after `patience` polls.
    method WaitForTics(counts: int, first: nat, patience: nat) returns (enough: bool, lowtic: nat)
      requires Valid() && first <= maketic && (connected ==> first <= recvtic)
      modifies this`maketic, this`recvtic, this`connected, this`skiptics, this`lasttime, this`made, ticdata
      ensures Valid() && old(made) <= made && lowtic <= maketic && (connected ==> lowtic <= recvtic)
      ensures enough ==> tic + counts <= lowtic
      ensures tic + counts <= first ==> enough && lowtic == first
    {
      hide Runs, Loop.Ring, Loop.History;
      lowtic := first;
      var polls := 0;
      RunsDiv(gametic, tic, ticdup, 0);
      var now := gametic / ticdup;
      while lowtic < now + counts
        invariant Valid() && lowtic <= maketic && (connected ==> lowtic <= recvtic) && old(made) <= made
        invariant polls <= patience && (tic + counts <= first ==> lowtic == first)
        decreases patience - polls, if lowtic < now + counts then 1 else 0
      {
        UpdateAnyhow();
        lowtic := GetLowTic();
        if lowtic < now {
          assert false;   // I_Error: lowtic < gametic
        }
        if lowtic < now + counts {
          if polls >= patience {
            return false, lowtic;
          }
          polls := polls + 1;
        }
      }
      enough := true;
    }

    // How many tics to run.
    function Counts(availabletics: int, realtics: int): (counts: int)
    {
      if newSync then availabletics
      else if realtics < availabletics - 1 then realtics + 1
      else if realtics < availabletics then realtics
      else availabletics
    }

    // The first part of TryRunTics: new commands, and how many tics to run.
    method Prepare(entertic: int, nowtime: int, arrived: seq<TicSet>, lost: bool) returns (lowtic: nat, counts: nat)
      requires Valid() && forall s | s in arrived :: FullSet(s)
      modifies this`maketic, this`recvtic, this`connected, this`skiptics, this`lasttime, this`made, this`oldEntertics,
               this`frameon, this`frameskip, this`oldNetTics, ticdata
      ensures Valid() && old(made) <= made && counts >= 1 && oldEntertics == entertic
      ensures old(GetLowTic()) <= lowtic <= maketic && (connected ==> lowtic <= recvtic)
      ensures lowtic > tic ==> tic + counts <= lowtic && (newSync ==> tic + counts == lowtic)
      // Under old sync, as many as have passed, one more if two more are there, and one at least.
      ensures lowtic > tic && !newSync ==>
        var passed := entertic - old(oldEntertics);
        counts == Min(lowtic - tic, Max(1, if passed < lowtic - tic - 1 then passed + 1 else passed))
      ensures !old(connected) ==> !connected && lowtic == maketic
      ensures !old(connected) ==>
        maketic == if singletics then Min(old(maketic) + 1, Max(old(maketic), tic + Limit())) else old(MadeAt(nowtime))
    {
      hide Runs, Loop.Ring, Loop.History, Left, StillSkipped, Loop.Follows;
      var realtics := entertic - oldEntertics;
      oldEntertics := entertic;
      if singletics {
        var built := BuildNewTic();
      } else {
        NetUpdate(nowtime, arrived, lost);
      }
      lowtic := GetLowTic();
      counts := Decide(lowtic, realtics);
    }

    // How many tics to run; under old sync the clock follows another player.
    method Decide(lowtic: nat, realtics: int) returns (counts: nat)
      requires Valid() && tic <= lowtic
      modifies this`skiptics, this`lasttime, this`frameon, this`frameskip, this`oldNetTics
      ensures Valid() && counts >= 1
      ensures lowtic > tic && newSync ==> counts == lowtic - tic
      ensures lowtic > tic && !newSync ==>
        counts == Min(lowtic - tic, Max(1, if realtics < lowtic - tic - 1 then realtics + 1 else realtics))
    {
      hide Runs, Loop.Ring, Loop.History, Loop.Follows;
      RunsDiv(gametic, tic, ticdup, 0);
      var availabletics := lowtic - gametic / ticdup;
      var n := Counts(availabletics, realtics);
      if n < 1 {
        n := 1;
      }
      if !newSync && connected {
        OldNetSync();
      }
      counts := n;
    }

    // TryRunTics, at the time `entertic`; the first update finds the time `nowtime`.  It runs no tic
    // exactly when it gives up waiting for one.
    method TryRunTics(entertic: int, nowtime: int, arrived: seq<TicSet>, lost: bool, patience: nat)
        returns (ghost gaveUp: bool)
      requires Valid() && forall s | s in arrived :: FullSet(s)
      modifies this, ticdata
      ensures Valid() && old(made) <= made && old(ran) <= ran
      // What is complete at the start is run: one tic at least, and all of them under new sync.
      ensures tic >= if newSync then old(GetLowTic()) else if old(GetLowTic()) > old(tic) then old(tic) + 1
          else old(tic)
      ensures tic == old(tic) <==> gaveUp
      // When not connected there is no need to wait if a tic has passed or commands are left, and under
      // new sync all commands are run.
      ensures !old(connected) && (singletics || nowtime - old(lasttime) > old(skiptics) || old(maketic) > old(tic))
        ==> !gaveUp
      ensures !old(connected) && newSync && !singletics && old(MadeAt(nowtime)) > old(tic)
        ==> tic == old(MadeAt(nowtime))
    {
      hide Runs, Loop.Ring, Loop.History;
      var lowtic, counts := Prepare(entertic, nowtime, arrived, lost);
      ghost var first := lowtic;
      var enough;
      enough, lowtic := WaitForTics(counts, lowtic, patience);
      gaveUp := !enough;
      if enough {
        RunSets(counts, lowtic);
      }
    }

    // The last loop of TryRunTics.
    method RunSets(counts: nat, lowtic: nat)
      requires Valid() && tic + counts <= lowtic <= maketic && (connected ==> lowtic <= recvtic)
      modifies this`maketic, this`recvtic, this`connected, this`skiptics, this`lasttime, this`made, this`gametic,
               this`localPlayerInGame, this`tic, this`ran, ticdata
      ensures Valid() && tic == old(tic) + counts && old(made) <= made && old(ran) <= ran
    {
      var i := counts;
      while i > 0
        invariant 0 <= i <= counts && Valid() && tic == old(tic) + (counts - i) && old(made) <= made && old(ran) <= ran
        invariant lowtic <= maketic && (connected ==> lowtic <= recvtic)
      {
        RunSet(lowtic);
        UpdateAnyhow();
        i := i - 1;
      }
    }
  }
}
