/**
 Choosing the system to boot: a 13-byte marker written a byte at a time, four device nodes that
 all point at the chosen system's partitions, and the switch of /data. Any of the commands may
 be cut short by a power failure; one completed load makes everything agree again.
 */
module DualBoot {
  import opened DualData

  const BOOT := 19
  const BOOT1 := 20
  const SYSTEM := 24
  const SYSTEM1 := 25

  const MARK_LENGTH := 13
  const MARK2 := "boot-system1"

  function Mark(which: Id): string {
    if which == 1 then "boot-system\0\0" else "boot-system1\0"
  }

  predicate OccursAt(s: string, pattern: string, i: nat) {
    i + |pattern| <= |s| && s[i..i + |pattern|] == pattern
  }

  /** `grep -q boot-system1` */
  predicate Contains(s: string, pattern: string) {
    exists i: nat | i <= |s| :: OccursAt(s, pattern, i)
  }

  function ReadMark(mark: string): Id {
    if Contains(mark, MARK2) then 2 else 1
  }

  /** The marker after `k` bytes of `new` have been written over `was`. */
  function Torn(was: string, new': string, k: nat): string
    requires |was| == |new'| && k <= |was|
  {
    new'[..k] + was[k..]
  }

  lemma MarkReads(which: Id)
    ensures |Mark(which)| == MARK_LENGTH && ReadMark(Mark(which)) == which
  {
    if which == 2 {
      assert OccursAt(Mark(2), MARK2, 0);
    } else {
      forall i: nat | i <= MARK_LENGTH
        ensures !OccursAt(Mark(1), MARK2, i)
      {
        if i == 0 {
          assert Mark(1)[0..12][11] == '\0';
        } else if i == 1 {
          assert Mark(1)[1..13][0] == 'o';
        }
      }
    }
  }

  /** In 13 bytes there are two places for it. */
  lemma TwoPlaces(mark: string)
    requires |mark| == MARK_LENGTH
    ensures ReadMark(mark) == 2 <==> OccursAt(mark, MARK2, 0) || OccursAt(mark, MARK2, 1)
  {
    if Contains(mark, MARK2) {
      var i: nat :| i <= |mark| && OccursAt(mark, MARK2, i);
      assert i == 0 || i == 1;
    }
  }

  /** A marker whose twelfth byte alone tells what it reads as; those that are written, and zeros, are. */
  predicate Sound(mark: string)
    requires |mark| == MARK_LENGTH
  {
    !OccursAt(mark, MARK2, 1) && (mark[11] == '1' ==> OccursAt(mark, MARK2, 0))
  }

  lemma WrittenMarksAreSound(which: Id)
    ensures |Mark(which)| == MARK_LENGTH && Sound(Mark(which))
    ensures Sound(seq(MARK_LENGTH, _ => '\0'))
  {
    if which == 2 {
      assert Mark(2)[0..12] == MARK2;
    }
    assert Mark(which)[1..13][0] == 'o';
    assert seq(MARK_LENGTH, _ => '\0')[1..13][0] == '\0';
  }

  lemma SoundReads(mark: string)
    requires |mark| == MARK_LENGTH && Sound(mark)
    ensures ReadMark(mark) == if mark[11] == '1' then 2 else 1
  {
    TwoPlaces(mark);
    if OccursAt(mark, MARK2, 0) {
      assert mark[0..12][11] == mark[11];
    }
  }

  /** A write over a sound marker, cut short, leaves the old choice, and from the twelfth byte on the new one. */
  lemma TornMarkIsOldOrNew(was: string, which: Id, k: nat)
    requires |was| == MARK_LENGTH && k <= MARK_LENGTH && Sound(was)
    ensures |Mark(which)| == MARK_LENGTH
    ensures var torn := Torn(was, Mark(which), k);
            Sound(torn) && ReadMark(torn) == if k >= 12 then which else ReadMark(was)
  {
    var torn := Torn(was, Mark(which), k);
    if k <= 11 {
      assert torn[11] == was[11];
    }
    TornIsSound(was, which, k);
    SoundReads(was);
    SoundReads(torn);
  }

  lemma TornIsSound(was: string, which: Id, k: nat)
    requires |was| == MARK_LENGTH && k <= MARK_LENGTH && Sound(was)
    ensures |Mark(which)| == MARK_LENGTH && Sound(Torn(was, Mark(which), k))
  {
    var torn := Torn(was, Mark(which), k);
    if k <= 1 {
      assert torn[1..13] == was[1..13];
    } else {
      assert torn[1..13][0] == torn[1] == Mark(which)[1] == 'o';
    }
    if torn[11] == '1' {
      assert torn[0..12] == MARK2 by {
        assert k <= 11 ==> torn[11] == was[11] && was[0..12] == MARK2;
        assert k > 11 ==> which == 2;
        forall j | 0 <= j < 12
          ensures torn[j] == MARK2[j]
        {
          assert k <= 11 && k <= j ==> torn[j] == was[j] == was[0..12][j];
        }
      }
    }
  }

  /** Exactly the sound markers: any other can be torn into a choice that was neither there nor asked for. */
  lemma TearingIsSafeIffSound(was: string)
    requires |was| == MARK_LENGTH
    ensures |Mark(1)| == |Mark(2)| == MARK_LENGTH
    ensures (forall which: Id, k: nat | k <= MARK_LENGTH ::
               ReadMark(Torn(was, Mark(which), k)) in {ReadMark(was), which}) <==> Sound(was)
  {
    if Sound(was) {
      forall which: Id, k: nat | k <= MARK_LENGTH
        ensures ReadMark(Torn(was, Mark(which), k)) in {ReadMark(was), which}
      {
        TornMarkIsOldOrNew(was, which, k);
      }
    } else if OccursAt(was, MARK2, 1) {
      TornIntoOne(was);
    } else {
      TornIntoTwo(was);
    }
  }

  lemma TornIntoOne(was: string)
    requires |was| == MARK_LENGTH && OccursAt(was, MARK2, 1)
    ensures |Mark(2)| == MARK_LENGTH && ReadMark(was) == 2 && ReadMark(Torn(was, Mark(2), 2)) == 1
  {
    var torn := Torn(was, Mark(2), 2);
    TwoPlaces(was);
    TwoPlaces(torn);
    assert was[1..13][10] == was[11] == torn[11] == 'm';
    assert torn[0..12][11] == torn[11] && torn[1..13][0] == torn[1] == 'o';
  }

  lemma TornIntoTwo(was: string)
    requires |was| == MARK_LENGTH && was[11] == '1' && !OccursAt(was, MARK2, 0) && !OccursAt(was, MARK2, 1)
    ensures |Mark(1)| == MARK_LENGTH && ReadMark(was) == 1 && ReadMark(Torn(was, Mark(1), 11)) == 2
  {
    var torn := Torn(was, Mark(1), 11);
    TwoPlaces(was);
    TwoPlaces(torn);
    assert torn[0..12] == MARK2;
  }

  function MinorBoot(which: Id): int { if which == 1 then BOOT else BOOT1 }

  function MinorSystem(which: Id): int { if which == 1 then SYSTEM else SYSTEM1 }

  /** All four nodes point at the partitions of system `which`. */
  predicate NodesFor(nodes: map<int, int>, which: Id) {
    && nodes.Keys == {BOOT, BOOT1, SYSTEM, SYSTEM1}
    && nodes[BOOT] == nodes[BOOT1] == (if which == 2 then BOOT1 else BOOT)
    && nodes[SYSTEM] == nodes[SYSTEM1] == (if which == 2 then SYSTEM1 else SYSTEM)
  }

  /** The same in partition numbers. */
  lemma NodesInNumbers(nodes: map<int, int>)
    ensures NodesFor(nodes, 1) <==> nodes == map[19 := 19, 20 := 19, 24 := 24, 25 := 24]
    ensures NodesFor(nodes, 2) <==> nodes == map[19 := 20, 20 := 20, 24 := 25, 25 := 25]
  {
  }

  predicate BothInUse(owns: Owns) { Labelled(owns) && owns[1] != map[] && owns[2] != map[] }

  lemma StaysInUse(was: Owns, is': Owns)
    requires Grown(was, is') && BothInUse(was)
    ensures BothInUse(is')
  {
    var x, y :| x in was[1] && y in was[2];
    assert x in is'[1] && y in is'[2];
  }

  /** More than enough steps for a load: eight nodes, and every entry moved once to finish a move and once to switch. */
  function LoadSteps(owns: Owns): nat
    requires Labelled(owns)
  {
    2 * Entries(owns) + 16
  }

  /** `DoSet(which)` is a set or a save. */
  datatype Command = DoSet(which: int) | DoLoad

  class Device {
    var mark: string
    var nodes: map<int, int>
    var power: nat
    const data: Volume

    constructor (data: Volume, mark: string)
      requires |mark| == MARK_LENGTH
      ensures this.data == data && this.mark == mark && this.power == 0 && this.nodes == map[]
    {
      this.data := data;
      this.mark := mark;
      this.nodes := map[];
      this.power := 0;
    }

    ghost predicate Valid()
      reads this, data
    {
      |mark| == MARK_LENGTH && nodes.Keys <= {BOOT, BOOT1, SYSTEM, SYSTEM1} && data.Valid()
    }

    /** dualboot_write: `dd bs=1 count=13`. */
    method WriteMark(which: int) returns (r: Result)
      requires |mark| == MARK_LENGTH
      modifies this`mark, this`power
      ensures Within(r, old(power), power, MARK_LENGTH)
      ensures r == Died <==> which != 1 && which != 2
      ensures r == Died ==> mark == old(mark)
      ensures r != Died ==> |Mark(which)| == MARK_LENGTH
                            && exists k: nat :: k <= MARK_LENGTH && mark == Torn(old(mark), Mark(which), k)
      ensures r == Done ==> mark == Mark(which)
      ensures |mark| == MARK_LENGTH
    {
      if which != 1 && which != 2 {
        return Died;
      }
      var bytes := Mark(which);
      ghost var was := mark;
      MarkReads(which);
      assert mark == Torn(was, bytes, 0);
      var i := 0;
      while i < MARK_LENGTH
        invariant 0 <= i <= MARK_LENGTH && mark == Torn(was, bytes, i) && power + i == old(power)
      {
        if power == 0 {
          return Crashed;
        }
        power := power - 1;
        mark := mark[i := bytes[i]];
        i := i + 1;
        assert mark == Torn(was, bytes, i);
      }
      return Done;
    }

    method MakeNode(node: int, minor: int) returns (r: Result)
      modifies this`nodes, this`power
      ensures r == Died <==> node in old(nodes)
      ensures Within(r, old(power), power, 1)
      ensures nodes == if r == Done then old(nodes)[node := minor] else old(nodes)
    {
      if node in nodes {
        return Died;
      }
      if power == 0 {
        return Crashed;
      }
      power := power - 1;
      nodes := nodes[node := minor];
      return Done;
    }

    method RemoveNode(node: int) returns (r: Result)
      modifies this`nodes, this`power
      ensures r != Died
      ensures Within(r, old(power), power, 1)
      ensures nodes == if r == Done then old(nodes) - {node} else old(nodes)
    {
      if power == 0 {
        return Crashed;
      }
      power := power - 1;
      nodes := nodes - {node};
      return Done;
    }

    /** dualboot_hacknodes */
    method HackNodes(which: Id) returns (r: Result)
      requires nodes.Keys <= {BOOT, BOOT1, SYSTEM, SYSTEM1}
      modifies this`nodes, this`power
      ensures nodes.Keys <= {BOOT, BOOT1, SYSTEM, SYSTEM1} && r != Died
      ensures Within(r, old(power), power, 8)
      ensures r == Done ==> NodesFor(nodes, which)
    {
      r := RemoveNode(BOOT);
      if r == Done { r := RemoveNode(BOOT1); }
      if r == Done { r := RemoveNode(SYSTEM); }
      if r == Done { r := RemoveNode(SYSTEM1); }
      if r != Done {
        return;
      }
      assert nodes.Keys == {};
      r := MakeNode(BOOT, MinorBoot(which));
      if r == Done { r := MakeNode(BOOT1, MinorBoot(which)); }
      if r == Done { r := MakeNode(SYSTEM, MinorSystem(which)); }
      if r == Done { r := MakeNode(SYSTEM1, MinorSystem(which)); }
    }

    /** The part that set, save and load share: point the nodes and /data at `which`. */
    method Follow(which: Id) returns (r: Result)
      requires Valid()
      modifies this`nodes, this`power, data
      ensures Valid() && r != Died
      ensures Within(r, old(power), power, LoadSteps(old(data.owns)))
      ensures r == Done ==> NodesFor(nodes, which)
      ensures r == Done && data.enabled ==> Live(data.View(), data.owns, which) && Other(which) in data.seal
      ensures r == Done && !data.enabled ==> Settled(data.View(), data.owns) && data.seal == map[]
      ensures Grown(old(data.owns), data.owns)
      ensures r == Done && BothInUse(old(data.owns)) ==> data.enabled
      ensures r == Done ==> (data.enabled <==> TwoSetUp(old(data.View())))
    {
      r := HackNodes(which);
      if r != Done {
        return;
      }
      data.power := power;
      r := data.Open();
      if r == Done {
        r := data.SwitchTo(which);
      }
      power := data.power;
    }

    /** do_set and recovery_save: the choice is written first. */
    method Set(which: int) returns (r: Result)
      requires Valid()
      modifies this, data
      ensures Valid()
      ensures r == Died <==> which != 1 && which != 2
      ensures Within(r, old(power), power, MARK_LENGTH + LoadSteps(old(data.owns)))
      ensures r == Done ==> mark == Mark(which) && Agree(which)
      ensures r == Done && which == 1 ==>
                mark == "boot-system\0\0" && nodes == map[19 := 19, 20 := 19, 24 := 24, 25 := 24]
      ensures r == Done && which == 2 ==>
                mark == "boot-system1\0" && nodes == map[19 := 20, 20 := 20, 24 := 25, 25 := 25]
      ensures Sound(old(mark)) ==> Sound(mark) && ReadMark(mark) in {ReadMark(old(mark)), which}
      ensures Grown(old(data.owns), data.owns)
    {
      r := WriteMark(which);
      if r != Died && Sound(old(mark)) {
        var k: nat :| k <= MARK_LENGTH && mark == Torn(old(mark), Mark(which), k);
        TornMarkIsOldOrNew(old(mark), which, k);
      }
      if r == Done {
        r := Follow(which);
        NodesInNumbers(nodes);
      }
    }

    /** Nodes and, if two systems are set up, /data are those of `which`. */
    ghost predicate Agree(which: Id)
      reads this, data
      requires Labelled(data.owns)
    {
      && NodesFor(nodes, which)
      && (data.enabled ==> Live(data.View(), data.owns, which) && Other(which) in data.seal)
      && (!data.enabled ==> Settled(data.View(), data.owns) && data.seal == map[])
    }

    /** recovery_load */
    method Load() returns (r: Result)
      requires Valid()
      modifies this`nodes, this`power, data
      ensures Valid() && r != Died
      ensures Within(r, old(power), power, LoadSteps(old(data.owns)))
      ensures r == Done ==> Agree(ReadMark(mark))
      ensures Grown(old(data.owns), data.owns)
      ensures r == Done && BothInUse(old(data.owns)) ==> data.enabled
      ensures r == Done ==> (data.enabled <==> TwoSetUp(old(data.View())))
      ensures r == Done ==>
                var which := ReadMark(mark);
                (data.root == data.owns[which] <==>
                 TwoSetUp(old(data.View())) || data.owns[which] != map[] || data.owns[Other(which)] == map[])
    {
      r := Follow(ReadMark(mark));
      if r == Done && !data.enabled {
        UnsealedRootIs(data.View(), data.owns, ReadMark(mark));
      }
    }

    method Do(command: Command) returns (r: Result)
      requires Valid()
      modifies this, data
      ensures Valid() && Grown(old(data.owns), data.owns)
      ensures Sound(old(mark)) ==>
                Sound(mark) && (ReadMark(mark) == ReadMark(old(mark)) || command == DoSet(ReadMark(mark)))
    {
      match command
      case DoSet(which) => r := Set(which);
      case DoLoad => r := Load();
    }
  }

  /** What the marker reads as was there at the start, or some set asked for it. */
  ghost predicate Chosen(was: Id, commands: seq<(Command, nat)>, which: Id) {
    which == was || exists i | 0 <= i < |commands| :: commands[i].0 == DoSet(which)
  }

  /** Any sequence of commands, each cut short after an arbitrary number of writes and renames. */
  method RunAll(device: Device, commands: seq<(Command, nat)>)
    requires device.Valid()
    modifies device, device.data
    ensures device.Valid() && Grown(old(device.data.owns), device.data.owns)
    ensures Sound(old(device.mark)) ==>
              Sound(device.mark) && Chosen(ReadMark(old(device.mark)), commands, ReadMark(device.mark))
  {
    for i := 0 to |commands|
      invariant device.Valid() && Grown(old(device.data.owns), device.data.owns)
      invariant Sound(old(device.mark)) ==>
                  Sound(device.mark) && Chosen(ReadMark(old(device.mark)), commands, ReadMark(device.mark))
    {
      device.power := commands[i].1;
      var _ := device.Do(commands[i].0);
    }
  }

  /**
   After any such sequence, one load that completes leaves marker, nodes and live /data agreeing on
   one system and, if both systems have data, the other one wholly sealed. The root is then the
   chosen system's data except in one case: two systems are not set up, and only the other has data.
   A load completes if the power lasts for two moves of every entry and twenty more steps.
   */
  method RunThenLoad(device: Device, commands: seq<(Command, nat)>, power: nat) returns (r: Result)
    requires device.Valid()
    modifies device, device.data
    ensures device.Valid() && Grown(old(device.data.owns), device.data.owns)
    ensures r == Done ==> device.Agree(ReadMark(device.mark))
    ensures Sound(old(device.mark)) ==> Chosen(ReadMark(old(device.mark)), commands, ReadMark(device.mark))
    ensures r == Done && BothInUse(old(device.data.owns)) ==>
              var which := ReadMark(device.mark);
              && device.data.enabled
              && device.data.root == device.data.owns[which]
              && Other(which) in device.data.seal && device.data.seal[Other(which)] == device.data.owns[Other(which)]
    ensures r == Done ==>
              var which := ReadMark(device.mark);
              (device.data.root == device.data.owns[which] <==>
               device.data.enabled || device.data.owns[which] != map[] || device.data.owns[Other(which)] == map[])
    ensures power >= 2 * Entries(old(device.data.owns)) + 20 ==> r == Done
    ensures r != Done ==> device.power == 0
  {
    RunAll(device, commands);
    if BothInUse(old(device.data.owns)) {
      StaysInUse(old(device.data.owns), device.data.owns);
    }
    GrownEntries(old(device.data.owns), device.data.owns);
    device.power := power;
    r := device.Load();
  }
}
