/** The worked examples in the documentation of `getDevices`, each derived from the general lemmas. */
module DeviceExamples {
  import opened Wrappers
  import Decimal
  import opened Devices
  import opened DeviceProperties

  /** `--cpu-threads 8`: CPU threads 0 .. 7. */
  lemma CpuThreads8()
    ensures var r := Resolve(8, 0, [], 0, 1);
      r.Ok? && |r.value| == 8 && forall i :: 0 <= i < 8 ==> r.value[i] == DeviceId(i, Cpu)
  {
    CpuThreadsEnumerate(8, 0, [], 0, 1);
  }

  /** No option, or `--num-devices 1`: GPU 0. */
  lemma DefaultSingleGpu()
    ensures Resolve(0, 0, [], 0, 1) == Ok([DeviceId(0, Gpu)])
    ensures Resolve(0, 1, [], 0, 1) == Ok([DeviceId(0, Gpu)])
  {
    NoDeviceList(0, 0, 1);
    NoDeviceList(1, 0, 1);
    var r := Resolve(0, 1, [], 0, 1).value;
    assert r == [DeviceId(0, Gpu)];
  }

  /** `--devices 2`: GPU 2. */
  lemma DevicesTwo()
    ensures Resolve(0, 0, ["2"], 0, 1) == Ok([DeviceId(2, Gpu)])
  {
    assert Decimal.Parse("2") == 2;
    assert AllNumbers(["2"]);
    ListWithoutCount(["2"], 0, 1);
    var r := Resolve(0, 0, ["2"], 0, 1).value;
    assert r == [DeviceId(2, Gpu)];
  }

  /** `--num-devices 4`, with one process or on any rank of several: GPUs 0, 1, 2, 3. */
  lemma NumDevicesFour(myRank: nat, numProcesses: nat)
    requires myRank < numProcesses
    ensures Resolve(0, 4, [], myRank, numProcesses)
         == Ok([DeviceId(0, Gpu), DeviceId(1, Gpu), DeviceId(2, Gpu), DeviceId(3, Gpu)])
  {
    NoDeviceList(4, myRank, numProcesses);
    var r := Resolve(0, 4, [], myRank, numProcesses).value;
    assert r[0] == DeviceId(0, Gpu) && r[1] == DeviceId(1, Gpu) && r[2] == DeviceId(2, Gpu) && r[3] == DeviceId(3, Gpu);
    assert r == [DeviceId(0, Gpu), DeviceId(1, Gpu), DeviceId(2, Gpu), DeviceId(3, Gpu)];
  }

  /** `--devices 0 1 2 3`: the same as `--num-devices 4`. */
  lemma DevicesZeroToThree()
    ensures Resolve(0, 0, ["0", "1", "2", "3"], 0, 1) == Resolve(0, 4, [], 0, 1)
  {
    var args := ["0", "1", "2", "3"];
    assert Decimal.Parse("0") == 0 && Decimal.Parse("1") == 1 && Decimal.Parse("2") == 2 && Decimal.Parse("3") == 3;
    assert AllNumbers(args);
    var nos := ParseAll(args).value;
    assert nos == [0, 1, 2, 3];
    ListWithoutCount(args, 0, 1);
    NumDevicesFour(0, 1);
    var r := Resolve(0, 0, args, 0, 1).value;
    assert r[0] == DeviceId(0, Gpu) && r[1] == DeviceId(1, Gpu) && r[2] == DeviceId(2, Gpu) && r[3] == DeviceId(3, Gpu);
    assert r == [DeviceId(0, Gpu), DeviceId(1, Gpu), DeviceId(2, Gpu), DeviceId(3, Gpu)];
  }

  /** `--devices 4 5 6 7`, with one process or on any rank of several: GPUs 4, 5, 6, 7. */
  lemma DevicesFourToSeven(myRank: nat, numProcesses: nat)
    requires myRank < numProcesses
    ensures Resolve(0, 0, ["4", "5", "6", "7"], myRank, numProcesses)
         == Ok([DeviceId(4, Gpu), DeviceId(5, Gpu), DeviceId(6, Gpu), DeviceId(7, Gpu)])
  {
    var args := ["4", "5", "6", "7"];
    assert Decimal.Parse("4") == 4 && Decimal.Parse("5") == 5 && Decimal.Parse("6") == 6 && Decimal.Parse("7") == 7;
    assert AllNumbers(args);
    ListWithoutCount(args, myRank, numProcesses);
    var r := Resolve(0, 0, args, myRank, numProcesses).value;
    assert r[0] == DeviceId(4, Gpu) && r[1] == DeviceId(5, Gpu) && r[2] == DeviceId(6, Gpu) && r[3] == DeviceId(7, Gpu);
    assert r == [DeviceId(4, Gpu), DeviceId(5, Gpu), DeviceId(6, Gpu), DeviceId(7, Gpu)];
  }

  /** `--num-devices 1 --devices 0 1 2 3 4 5 6 7` is an 8-process job: process k uses GPU k. */
  lemma EightProcessesOneGpuEach(myRank: nat)
    requires myRank < 8
    ensures Resolve(0, 1, ["0", "1", "2", "3", "4", "5", "6", "7"], myRank, 8) == Ok([DeviceId(myRank, Gpu)])
  {
    var args := ["0", "1", "2", "3", "4", "5", "6", "7"];
    assert Decimal.Parse("0") == 0 && Decimal.Parse("1") == 1 && Decimal.Parse("2") == 2 && Decimal.Parse("3") == 3;
    assert Decimal.Parse("4") == 4 && Decimal.Parse("5") == 5 && Decimal.Parse("6") == 6 && Decimal.Parse("7") == 7;
    assert AllNumbers(args);
    PerProcessBlocks(1, args, myRank, 8, 8);
    var nos := ParseAll(args).value;
    assert nos[myRank] == myRank;
    var r := Resolve(0, 1, args, myRank, 8).value;
    assert r == [DeviceId(myRank, Gpu)];
  }

  /** The eight device numbers 0 .. 7, written out. */
  lemma EightInOrder()
    ensures ParseAll(["0", "1", "2", "3", "4", "5", "6", "7"]) == Ok([0, 1, 2, 3, 4, 5, 6, 7])
  {
    var args := ["0", "1", "2", "3", "4", "5", "6", "7"];
    assert Decimal.Parse("0") == 0 && Decimal.Parse("1") == 1 && Decimal.Parse("2") == 2 && Decimal.Parse("3") == 3;
    assert Decimal.Parse("4") == 4 && Decimal.Parse("5") == 5 && Decimal.Parse("6") == 6 && Decimal.Parse("7") == 7;
    assert AllNumbers(args);
    var nos := ParseAll(args).value;
    assert nos == [0, 1, 2, 3, 4, 5, 6, 7];
  }

  /** With `--num-devices 4` and the devices 0 .. 7 over two processes, rank k uses GPUs 4k .. 4k+3. */
  lemma FourOfEight(myRank: nat)
    requires myRank < 2
    ensures var k := 4 * myRank;
      Resolve(0, 4, ["0", "1", "2", "3", "4", "5", "6", "7"], myRank, 2)
        == Ok([DeviceId(k, Gpu), DeviceId(k + 1, Gpu), DeviceId(k + 2, Gpu), DeviceId(k + 3, Gpu)])
  {
    var list: seq<nat> := [0, 1, 2, 3, 4, 5, 6, 7];
    var k := 4 * myRank;
    EightInOrder();
    SliceBlocks(4, list, myRank, 2, 2);
    var block := Block(list, myRank, 4);
    if myRank == 0 {
      assert block == list[..4];
    } else {
      assert block == list[4..];
    }
    assert block == [k, k + 1, k + 2, k + 3];
    var r := WithKind(block, Gpu);
    assert r == [DeviceId(k, Gpu), DeviceId(k + 1, Gpu), DeviceId(k + 2, Gpu), DeviceId(k + 3, Gpu)];
  }

  /** `--num-devices 4 --devices 0 1 2 3 4 5 6 7` is a 2-process job: process 0 uses GPUs 0 .. 3 and process 1 uses GPUs 4 .. 7. */
  lemma TwoProcessesFourGpusEach()
    ensures Resolve(0, 4, ["0", "1", "2", "3", "4", "5", "6", "7"], 0, 2)
         == Ok([DeviceId(0, Gpu), DeviceId(1, Gpu), DeviceId(2, Gpu), DeviceId(3, Gpu)])
    ensures Resolve(0, 4, ["0", "1", "2", "3", "4", "5", "6", "7"], 1, 2)
         == Ok([DeviceId(4, Gpu), DeviceId(5, Gpu), DeviceId(6, Gpu), DeviceId(7, Gpu)])
  {
    FourOfEight(0);
    FourOfEight(1);
  }

  /** `--num-devices 1 --devices 0 2 4 5` is a 4-process job: process 1 uses GPU 2. */
  lemma FourProcessesListed()
    ensures Resolve(0, 1, ["0", "2", "4", "5"], 1, 4) == Ok([DeviceId(2, Gpu)])
  {
    var args := ["0", "2", "4", "5"];
    assert Decimal.Parse("2") == 2;
    assert AllNumbers(args);
    PerProcessBlocks(1, args, 1, 4, 4);
    var nos := ParseAll(args).value;
    assert nos[1] == 2;
    var r := Resolve(0, 1, args, 1, 4).value;
    assert r == [DeviceId(2, Gpu)];
  }

  /** One process with `--num-devices 2 --devices 0 1 2` is refused: 3 entries are not 2. */
  lemma SingleProcessSizeMismatch()
    ensures Resolve(0, 2, ["0", "1", "2"], 0, 1) == Err(SizeNotEqualToNumDevices)
  {
    assert AllNumbers(["0", "1", "2"]);
    SingleProcess(2, ["0", "1", "2"]);
  }

  /** Two processes with `--num-devices 1 --devices 0 1 2 3` are refused: 4 blocks are not 2. */
  lemma TwoProcessesFourBlocks()
    ensures Resolve(0, 1, ["0", "1", "2", "3"], 0, 2) == Err(NeitherSharedNorPerProcess)
  {
    assert AllNumbers(["0", "1", "2", "3"]);
    PerProcessBlocks(1, ["0", "1", "2", "3"], 0, 2, 4);
  }

  /** Two processes with `--num-devices 4 --devices 0 1` are refused: 2 entries are no multiple of 4. */
  lemma TwoProcessesShortList()
    ensures Resolve(0, 4, ["0", "1"], 0, 2) == Err(SizeNotMultipleOfNumDevices)
  {
    assert AllNumbers(["0", "1"]);
    NotAMultiple(4, ["0", "1"], 0, 2);
  }

  /** An entry that is not a number is refused even when the list would otherwise fit. */
  lemma NotANumber()
    ensures Resolve(0, 0, ["0", "x1"], 0, 1) == Err(InvalidDeviceNumber("x1"))
  {
    assert !Decimal.IsDigit('x');
    assert ["0", "x1"][..1] == ["0"];
  }
}
