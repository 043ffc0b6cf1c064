/**
 * Worked cases of the whole callback: a laser covering the front half-circle
 * at one-degree resolution that saw nothing, and one sonar looking straight
 * ahead from the laser's own frame.
 */
module Scenarios {
  import opened Ranges
  import opened Scans
  import opened Reprojection
  import opened Fusion

  /** The inbound laser: -PI/2 to PI/2 in steps of PI/180, ranges 0.1 to 10, no returns. */
  function FrontLaser(): (s: LaserScan)
    ensures |s.ranges| == 181
  {
    LaserScan(Header(1, 0.0, "base_laser"), -PI / 2.0, PI / 2.0, PI / 180.0, 0.0, 0.1,
              0.1, 10.0, seq(181, _ => Inf))
  }

  /** A sonar valid from 0.1 to 5.0 that reads 2.0. */
  function FrontSonar(): Sonar {
    Sonar("sonar_front", "sonar_front_link", 0.1, 5.0, 0.26, 2.0)
  }

  /** Every inbound sample of the front laser lands in bin i + 90 of the skeleton. */
  lemma FrontLaserFits()
    ensures |Skeleton(FrontLaser()).ranges| == 360
    ensures InboundFits(Skeleton(FrontLaser()), FrontLaser())
    ensures forall k :: 0 <= k < 360 ==> WithInbound(FrontLaser()).ranges[k] == Inf
  {
    var input := FrontLaser();
    var out := Skeleton(input);
    assert 2.0 * PI / (PI / 180.0) == 360.0;
    assert CircleBins(PI / 180.0) == Ceil(360.0) == 360;
    assert (input.angleMin - out.angleMin) / out.angleIncrement == 90.0;
    assert Trunc(90.0) == 90;
    forall i | 0 <= i < |input.ranges| ensures 0 <= InboundBin(out, input, i) < |out.ranges| {
      InboundBinShift(out, input, i);
    }
    ReprojectUniform(out, input, |input.ranges|, Inf);
  }

  /** The bearing 0 at range 2 is inside the skeleton's envelope and falls in bin 180. */
  lemma AheadPointFits()
    ensures InEnvelope(Skeleton(FrontLaser()), Polar(2.0, 0.0))
    ensures BinIndex(Skeleton(FrontLaser()), 0.0) == 180
    ensures Fits(Skeleton(FrontLaser()), Polar(2.0, 0.0))
  {
    var skeleton := Skeleton(FrontLaser());
    FrontLaserFits();
    assert (0.0 - skeleton.angleMin) / skeleton.angleIncrement == 180.0;
    assert Trunc(180.0) == 180;
  }

  /**
   * With the sonar's transform known and equal to the identity, its central
   * point (2, 0, 0) has range 2 and bearing 0: the output has 360 bins, bin 180
   * holds 2.0 and every other bin is still +infinity.
   */
  lemma SonarAheadLandsInBin180()
    ensures CallbackFits(FrontLaser(), [FrontSonar()], [Transformed(Polar(2.0, 0.0))])
    ensures
      var r := Fused(FrontLaser(), [FrontSonar()], [Transformed(Polar(2.0, 0.0))]);
      |r.ranges| == 360 && r.ranges[180] == Fin(2.0) &&
      forall k :: 0 <= k < 360 && k != 180 ==> r.ranges[k] == Inf
  {
    var p := Polar(2.0, 0.0);
    FrontLaserFits();
    AheadPointFits();
    var base := WithInbound(FrontLaser());
    FitsShape(base, Skeleton(FrontLaser()), [p]);
    assert Contributions([FrontSonar()], [Transformed(p)]) == [p] by {
      assert [FrontSonar()][..0] == [];
    }
    assert MergeAll(base, [p]) == Merge(base, p) by {
      assert [p][..0] == [];
    }
  }

  /** When the sonar's transform lookup fails, the output is the copied laser scan. */
  lemma FailedLookupLeavesLaser()
    ensures CallbackFits(FrontLaser(), [FrontSonar()], [TfError("frame does not exist")])
    ensures
      var r := Fused(FrontLaser(), [FrontSonar()], [TfError("frame does not exist")]);
      r == WithInbound(FrontLaser()) &&
      |r.ranges| == 360 && forall k :: 0 <= k < 360 ==> r.ranges[k] == Inf
  {
    FrontLaserFits();
    assert Contributions([FrontSonar()], [TfError("frame does not exist")]) == [] by {
      assert [FrontSonar()][..0] == [];
    }
  }

  /**
   * A point straight behind the laser has bearing PI, the skeleton's angle_max,
   * which is inside the envelope; since 2*PI / (PI/180) = 360 is whole, its bin
   * is 360, one past the last bin, so the merge precondition rules it out.
   */
  lemma PointBehindIsPastLastBin()
    ensures InEnvelope(Skeleton(FrontLaser()), Polar(2.0, PI))
    ensures BinIndex(Skeleton(FrontLaser()), PI) == |Skeleton(FrontLaser()).ranges| == 360
    ensures !Fits(Skeleton(FrontLaser()), Polar(2.0, PI))
  {
    var skeleton := Skeleton(FrontLaser());
    FrontLaserFits();
    assert 2.0 * PI / skeleton.angleIncrement == 360.0;
    assert IsWhole(360.0);
    UpperEdge(skeleton, PI);
  }
}
