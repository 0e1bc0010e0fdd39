/** Concrete runs in which nothing fails and the row of an item of four characters or fewer goes wrong. */
module CatalogShortIds {
  import opened Tiles
  import opened Sums
  import opened Layers
  import opened Catalog
  import opened CatalogRuns
  import opened CatalogDoubleCount
  import opened Paths

  // An overwrite that is never recalculated

  const SHORT := LayerKey("databases", "abc")
  const LARGER := PutAt(SHORT, FIRST, 7, false)

  function Overwritten1(): World { AfterCommit(Initial(SHORT), LARGER) }

  function Overwritten2(): World { Overwritten1().(flight := Some(Flight([LARGER], map[])), waiting := []) }

  lemma OverwriteSteps() returns (w3: World, d3: map<string, Delta>)
    ensures Next(Initial(SHORT), Commit(LARGER, Some(0)), Overwritten1())
    ensures Next(Overwritten1(), Take(1), Overwritten2()) && Next(Overwritten2(), Finish(d3), w3)
    ensures w3.waiting == [] && w3.flight == None && w3.spoiled == {} && DriftOf(w3.drift, SHORT) == 2
  {
    hide Dir, Alone, Committed, Taken, Finished, Landed;
    LongDatabaseAlone(SHORT);
    assert TilesOf(Initial(SHORT), SHORT) == map[FIRST := 5];
    CommitHappens(Initial(SHORT), LARGER);
    assert Overwritten1().waiting == [LARGER] + [];
    TakeHappens(Overwritten1(), LARGER, []);
    w3, d3 := FinishHappens(Overwritten2(), LARGER);
    LandedHistory(Overwritten2(), w3.catalog, SHORT);
    NothingSpoiled(Overwritten2(), w3.catalog);
  }

  lemma NothingSpoiled(w: World, after: Catalog)
    requires w.flight.Some? && w.flight.value.readings == map[] && w.spoiled == {}
    ensures Landed(w, after).spoiled == {}
  {
    hide Touched, Coords, Dir;
  }

  lemma ThreeSteps(run: seq<World>, steps: seq<Step>)
    requires |run| == 4 && |steps| == 3
    requires Next(run[0], steps[0], run[1]) && Next(run[1], steps[1], run[2]) && Next(run[2], steps[2], run[3])
    ensures IsRun(run, steps)
  {
    hide Next;
  }

  lemma QueuedStep(put: CatalogPut)
    ensures Untroubled(Commit(put, Some(0)), put.layer)
  {
    hide Dir;
  }

  /** A tile of item "abc" grows from five bytes to seven. The walk lists its zoom directory instead of the item, so the
      flush folds the overwrite into the row, which keeps the five bytes for good. */
  lemma OverwriteOfShortItemStays() returns (run: seq<World>, steps: seq<Step>)
    ensures IsRun(run, steps) && Accurate(run[0], SHORT)
    ensures forall s :: 0 <= s < |steps| ==> Untroubled(steps[s], SHORT)
    ensures var w := run[|run| - 1];
            && w.waiting == [] && w.flight == None && SHORT !in w.spoiled
            && Row(w, SHORT).bytes + 2 == Total(TilesOf(w, SHORT))
  {
    InitialAccurate(SHORT);
    QueuedStep(LARGER);
    assert !LongId(SHORT.item) && Idle(Initial(SHORT));
    hide IsRun, Accurate, Untroubled, Next, Row, TilesOf, DriftOf, Overwritten1, Overwritten2, Initial, Total, Dir, Idle,
      NothingLost, Lossless, Summarizes;
    var w3, d3 := OverwriteSteps();
    run, steps := [Initial(SHORT), Overwritten1(), Overwritten2(), w3], [Commit(LARGER, Some(0)), Take(1), Finish(d3)];
    ThreeSteps(run, steps);
    OtherSteps(d3);
    NoFailureNoLoss(run, steps, 3, SHORT);
    DrainedAgreement(run, steps, 3, SHORT);
  }

  lemma OtherSteps(d: map<string, Delta>)
    ensures Untroubled(Take(1), SHORT) && Untroubled(Finish(d), SHORT)
  {
  }

  // A zoom directory taken for a layer

  const AB := LayerKey("databases", "ab")
  const ABJ := LayerKey("databases", "abJ")
  const SAME := PutAt(ABJ, FIRST, 5, false)

  /** Layer "abJ" as before, beside a layer "ab" whose zoom directory is "J". */
  function Beside(): World {
    Initial(ABJ).(tiles := map[Dir(AB) := map[FIRST := 5], Dir(ABJ) := map[FIRST := 5]])
  }

  function Elsewhere(): Path { DatabaseDirectory(ABJ.database) + ["ab", "J"] }

  lemma Directories()
    ensures Dir(AB) == DatabaseDirectory(ABJ.database) + ["ab"] && Dir(ABJ) == DatabaseDirectory(ABJ.database) + ["abJ"]
    ensures Elsewhere() != Dir(AB) && Elsewhere() != Dir(ABJ) && Dir(AB) != Dir(ABJ)
    ensures Elsewhere() == Dir(AB) + [ZoomDirectory(FIRST)] && "ab" + "J" == ABJ.item
  {
    var d := DatabaseDirectory(ABJ.database);
    assert (d + ["ab"])[|d|] == "ab" && (d + ["abJ"])[|d|] == "abJ";
    assert |Elsewhere()| == |d| + 2;
    assert ZoomDirectory(FIRST) == "J";
    assert d + ["ab"] + ["J"] == d + ["ab", "J"];
  }

  lemma BesideAccurate()
    ensures Accurate(Beside(), ABJ)
  {
    Directories();
    InitialAccurate(ABJ);
    hide Dir, Describes, Start;
    assert TilesOf(Beside(), ABJ) == TilesOf(Initial(ABJ), ABJ);
    assert Row(Beside(), ABJ) == Row(Initial(ABJ), ABJ);
  }

  function Beside1(): World { AfterCommit(Beside(), SAME) }

  function Beside2(): World { Beside1().(flight := Some(Flight([SAME], map[])), waiting := []) }

  function Beside3(): World { WithReading(Beside2(), SAME, NewReading(Elsewhere())) }

  ghost function Beside4(): World { WithReading(Beside2(), SAME, NewReading(Elsewhere()).(tables := ALL)) }

  lemma StraySteps()
    ensures Next(Beside(), Commit(SAME, Some(0)), Beside1()) && Next(Beside1(), Take(1), Beside2())
    ensures Next(Beside2(), Open(ABJ, "ab", "J"), Beside3()) && Next(Beside3(), Skip(ABJ, ALL), Beside4())
  {
    hide Dir, Alone, Committed, Taken, Opened, Skipped, Elsewhere, ZoomDirectory;
    Directories();
    LongDatabaseAlone(ABJ);
    assert TilesOf(Beside(), ABJ) == map[FIRST := 5];
    CommitHappens(Beside(), SAME);
    assert Beside1().waiting == [SAME] + [];
    TakeHappens(Beside1(), SAME, []);
    StraySeen();
    assert Elsewhere() == DatabaseDirectory(ABJ.database) + ["ab", "J"] by { ElsewhereIs(); }
    OpenHappens(Beside2(), SAME, "ab", "J");
    assert TilesIn(Beside2().tiles, Elsewhere()) == map[];
    SkipHappens(Beside2(), SAME, Elsewhere(), ALL);
  }

  lemma ElsewhereIs()
    ensures Elsewhere() == DatabaseDirectory(ABJ.database) + ["ab", "J"]
  {
  }

  lemma StraySeen()
    ensures Seen(Beside2().tiles, Elsewhere())
  {
    Directories();
    hide Dir, ZoomDirectory, Elsewhere;
    assert Dir(AB) in Beside2().tiles && FIRST in Beside2().tiles[Dir(AB)];
    assert Under(Elsewhere(), Dir(AB) + [ZoomDirectory(FIRST)]);
  }

  lemma SameTouched()
    ensures ABJ in Touched([SAME])
  {
    assert SAME in [SAME];
  }

  lemma StrayEnds(w: World, d: map<string, Delta>, w': World)
    requires w == Beside4() && Finished(w, d, w')
    ensures Row(w', ABJ).tileCount == 0 && |TilesOf(w', ABJ)| == 1
  {
    hide Finished, Dir, Elsewhere, Row, FoldAll, Of, Amount, Touched, Landed;
    Directories();
    SameTouched();
    FinishedRow(w, d, w', ABJ);
    FinishedRest(w, d, w', ABJ);
    assert TilesOf(Beside(), ABJ) == map[FIRST := 5];
    assert TilesOf(w', ABJ) == map[FIRST := 5][FIRST := 5];
    OneTile(TilesOf(w', ABJ));
  }

  lemma OneTile(tiles: map<Coord, nat>)
    requires tiles == map[FIRST := 5][FIRST := 5]
    ensures |tiles| == 1
  {
    assert tiles.Keys == {FIRST};
  }

  /** A tile of item "abJ" is written anew with the same bytes. The walk joins the item "ab" and its zoom directory "J" to
      the same id, finds no tile below, and the flush sets the row of "abJ" to nothing. */
  lemma ZoomDirectoryEmptiesRow() returns (run: seq<World>, steps: seq<Step>)
    ensures IsRun(run, steps) && Accurate(run[0], ABJ)
    ensures forall s :: 0 <= s < |steps| ==> Untroubled(steps[s], ABJ)
    ensures var w := run[|run| - 1]; w.waiting == [] && w.flight == None && Row(w, ABJ).tileCount < |TilesOf(w, ABJ)|
  {
    BesideAccurate();
    StraySteps();
    QueuedStep(SAME);
    var w5, d5 := StrayFlush();
    hide IsRun, Accurate, Next, Row, TilesOf, Beside, Beside1, Beside2, Beside3, Beside4, Hits;
    run := [Beside(), Beside1(), Beside2(), Beside3(), Beside4(), w5];
    steps := [Commit(SAME, Some(0)), Take(1), Open(ABJ, "ab", "J"), Skip(ABJ, ALL), Finish(d5)];
    FiveSteps(run, steps);
  }

  lemma StrayFlush() returns (w5: World, d5: map<string, Delta>)
    ensures Next(Beside4(), Finish(d5), w5) && w5.waiting == [] && w5.flight == None
    ensures Row(w5, ABJ).tileCount < |TilesOf(w5, ABJ)|
  {
    hide Finished, Landed, Dir, Elsewhere, Row, TilesOf, Beside1;
    w5, d5 := FinishHappens(Beside4(), SAME);
    StrayEnds(Beside4(), d5, w5);
  }

  lemma FiveSteps(run: seq<World>, steps: seq<Step>)
    requires |run| == 6 && |steps| == 5
    requires Next(run[0], steps[0], run[1]) && Next(run[1], steps[1], run[2]) && Next(run[2], steps[2], run[3])
    requires Next(run[3], steps[3], run[4]) && Next(run[4], steps[4], run[5])
    ensures IsRun(run, steps)
  {
    hide Next;
  }
}
