/** The audio branch of the packet loop in `record_segment`: timestamps are moved to the first decoding
    time and repaired so that they rise. */
module AudioTimestamps {

  /** A timestamp, or AV_NOPTS_VALUE. */
  datatype Stamp = NoPts | At(t: int)

  datatype Packet = Packet(dts: Stamp, pts: Stamp)

  /** The times written for a packet. */
  datatype Times = Times(dts: int, pts: int)

  function Max(a: int, b: int): int {
    if a < b then b else a
  }

  function NotNegative(a: int): nat {
    if a < 0 then 0 else a
  }

  // ---------------------------------------------------------------- what is asked for

  /** The first decoding time among the first `n` packets. */
  function Base(pkts: seq<Packet>, n: nat): Stamp
    requires n <= |pkts|
  {
    if n == 0 then NoPts else if Base(pkts, n - 1).At? then Base(pkts, n - 1) else pkts[n - 1].dts
  }

  /** A stamp on the new scale; nothing below 0, and 0 when there is none. */
  function Moved(s: Stamp, base: Stamp): nat {
    if s.At? && base.At? && s.t > base.t then s.t - base.t else 0
  }

  function WantedDts(pkts: seq<Packet>, i: nat): nat
    requires i < |pkts|
  {
    Moved(pkts[i].dts, Base(pkts, i + 1))
  }

  /** Packet `i` has a presentation time that can be moved. */
  predicate HasPts(pkts: seq<Packet>, i: nat)
    requires i < |pkts|
  {
    pkts[i].pts.At? && Base(pkts, i + 1).At?
  }

  function WantedPts(pkts: seq<Packet>, i: nat): nat
    requires i < |pkts|
  {
    Moved(pkts[i].pts, Base(pkts, i + 1))
  }

  /** The decoding times: strictly rising from 1, and none below its wanted value. */
  ghost predicate GoodDts(pkts: seq<Packet>, d: seq<int>) {
    && |d| == |pkts| && (|d| > 0 ==> d[0] >= 1)
    && (forall i :: 0 <= i < |d| ==> d[i] >= WantedDts(pkts, i))
    && forall i :: 0 < i < |d| ==> d[i] > d[i - 1]
  }

  ghost predicate Pointwise(a: seq<int>, b: seq<int>) {
    |a| == |b| && forall i :: 0 <= i < |a| ==> a[i] <= b[i]
  }

  ghost function DtsOf(ts: seq<Times>): seq<int> {
    seq(|ts|, i requires 0 <= i < |ts| => ts[i].dts)
  }

  ghost function PtsOf(ts: seq<Times>): seq<int> {
    seq(|ts|, i requires 0 <= i < |ts| => ts[i].pts)
  }

  ghost predicate Rising(s: seq<int>) {
    forall i :: 0 < i < |s| ==> s[i] > s[i - 1]
  }

  /** What the recorder writes, packet by packet. */
  ghost predicate Repaired(pkts: seq<Packet>, ts: seq<Times>) {
    |ts| == |pkts| && forall i :: 0 <= i < |ts| ==> Repaired1(pkts, ts, i)
  }

  ghost predicate Repaired1(pkts: seq<Packet>, ts: seq<Times>, i: nat)
    requires |ts| <= |pkts| && i < |ts|
  {
    && ts[i].dts == Max(if i == 0 then 1 else ts[i - 1].dts + 1, WantedDts(pkts, i))
    && ts[i].pts == if !HasPts(pkts, i) then ts[i].dts
                    else Max(Max(if i == 0 then WantedPts(pkts, i) + 1 else ts[i - 1].pts + 1, WantedPts(pkts, i)), ts[i].dts)
  }

  // ---------------------------------------------------------------- the loop

  class Recorder {
    var first_audio_dts: Stamp
    var last_audio_dts: int
    var last_audio_pts: int
    var audio_packet_count: nat

    constructor ()
      ensures first_audio_dts == NoPts && audio_packet_count == 0
    {
      first_audio_dts, last_audio_dts, last_audio_pts, audio_packet_count := NoPts, 0, 0, 0;
    }

    /** The fields after `ts` has been written for the first packets. */
    ghost predicate Follows(pkts: seq<Packet>, ts: seq<Times>)
      requires |ts| <= |pkts|
      reads this
    {
      && first_audio_dts == Base(pkts, |ts|) && (audio_packet_count == 0 <==> ts == [])
      && (ts != [] ==> last_audio_dts == ts[|ts| - 1].dts >= 1 && last_audio_pts == ts[|ts| - 1].pts)
    }

    /** One audio packet; `written` is whether the muxer took it. */
    method Audio(pkt: Packet, written: bool, ghost pkts: seq<Packet>, ghost ts: seq<Times>) returns (out: Times)
      requires |ts| < |pkts| && pkt == pkts[|ts|] && Follows(pkts, ts)
      modifies this
      ensures Follows(pkts, ts + [out]) && Repaired1(pkts, ts + [out], |ts|)
    {
      if first_audio_dts == NoPts && pkt.dts != NoPts {
        first_audio_dts := pkt.dts;
      }
      FirstIsBase(pkts, |ts|);
      if audio_packet_count == 0 {
        if pkt.dts != NoPts && first_audio_dts != NoPts {
          last_audio_dts := NotNegative(pkt.dts.t - first_audio_dts.t);
        } else {
          last_audio_dts := 0;
        }
        if pkt.pts != NoPts && first_audio_dts != NoPts {
          last_audio_pts := NotNegative(pkt.pts.t - first_audio_dts.t);
        } else {
          last_audio_pts := 0;
        }
        audio_packet_count := audio_packet_count + 1;
      }
      var dts, pts;
      if pkt.dts != NoPts && first_audio_dts != NoPts {
        var new_dts := NotNegative(pkt.dts.t - first_audio_dts.t);
        if new_dts <= last_audio_dts { new_dts := last_audio_dts + 1; }
        dts := new_dts;
        last_audio_dts := new_dts;
      } else {
        dts := last_audio_dts + 1;
        last_audio_dts := dts;
      }
      if pkt.pts != NoPts && first_audio_dts != NoPts {
        var new_pts := NotNegative(pkt.pts.t - first_audio_dts.t);
        if new_pts <= last_audio_pts { new_pts := last_audio_pts + 1; }
        if new_pts < dts { new_pts := dts; }
        pts := new_pts;
        last_audio_pts := new_pts;
      } else {
        pts := dts;
        last_audio_pts := pts;
      }
      if written { audio_packet_count := audio_packet_count + 1; }
      out := Times(dts, pts);
    }
  }

  /** The first packet with a decoding time is its own base. */
  lemma FirstIsBase(pkts: seq<Packet>, n: nat)
    requires n < |pkts|
    ensures Base(pkts, n + 1) == if Base(pkts, n) == NoPts then pkts[n].dts else Base(pkts, n)
    ensures n == 0 ==> WantedDts(pkts, 0) == 0
  {
  }

  /** A whole run. */
  method Record(pkts: seq<Packet>, written: seq<bool>) returns (ts: seq<Times>)
    requires |written| == |pkts|
    ensures Repaired(pkts, ts)
  {
    hide Recorder.Follows, Base;
    var r := new Recorder();
    ts := [];
    NoneYet(r, pkts);
    for i := 0 to |pkts|
      invariant |ts| == i && r.Follows(pkts, ts)
      invariant forall j :: 0 <= j < i ==> Repaired1(pkts, ts, j)
    {
      var out := r.Audio(pkts[i], written[i], pkts, ts);
      forall j | 0 <= j < i ensures Repaired1(pkts, ts + [out], j) {
        assert Repaired1(pkts, ts, j);
      }
      ts := ts + [out];
    }
  }

  lemma NoneYet(r: Recorder, pkts: seq<Packet>)
    requires r.first_audio_dts == NoPts && r.audio_packet_count == 0
    ensures r.Follows(pkts, [])
  {
  }

  // ---------------------------------------------------------------- what it amounts to

  /** The decoding times are good, and none that are good lie below them anywhere. */
  lemma DtsLeast(pkts: seq<Packet>, ts: seq<Times>, other: seq<int>)
    requires Repaired(pkts, ts)
    ensures GoodDts(pkts, DtsOf(ts)) && (|ts| > 0 ==> ts[0].dts == 1)
    ensures GoodDts(pkts, other) ==> Pointwise(DtsOf(ts), other)
  {
    if |pkts| > 0 {
      FirstIsBase(pkts, 0);
      assert Repaired1(pkts, ts, 0);
    }
    forall i | 0 <= i < |ts|
      ensures ts[i].dts >= WantedDts(pkts, i) && (i > 0 ==> ts[i].dts > ts[i - 1].dts)
    {
      assert Repaired1(pkts, ts, i);
    }
    if GoodDts(pkts, other) {
      forall i | 0 <= i < |ts| ensures ts[i].dts <= other[i] {
        DtsBelow(pkts, ts, other, i);
      }
    }
  }

  lemma {:induction false} DtsBelow(pkts: seq<Packet>, ts: seq<Times>, other: seq<int>, i: nat)
    requires Repaired(pkts, ts) && GoodDts(pkts, other) && i < |ts|
    ensures ts[i].dts <= other[i]
  {
    assert Repaired1(pkts, ts, i);
    if i > 0 { DtsBelow(pkts, ts, other, i - 1); }
  }

  /** Presentation never comes before decoding. */
  lemma PtsNotBeforeDts(pkts: seq<Packet>, ts: seq<Times>)
    requires Repaired(pkts, ts)
    ensures forall i :: 0 <= i < |ts| ==> ts[i].pts >= ts[i].dts
  {
    forall i | 0 <= i < |ts| ensures ts[i].pts >= ts[i].dts {
      assert Repaired1(pkts, ts, i);
    }
  }

  /** Without a presentation time the decoding time is used, and the order is kept only if that is later
      than the presentation time before it. */
  ghost predicate Keeps(pkts: seq<Packet>, ts: seq<Times>, i: nat)
    requires |ts| == |pkts| && 0 < i < |ts|
  {
    HasPts(pkts, i) || ts[i].dts > ts[i - 1].pts
  }

  lemma PtsRisesExactly(pkts: seq<Packet>, ts: seq<Times>)
    requires Repaired(pkts, ts)
    ensures Rising(PtsOf(ts)) <==> forall i :: 0 < i < |ts| ==> Keeps(pkts, ts, i)
  {
    var s := PtsOf(ts);
    forall i | 0 < i < |ts| ensures Keeps(pkts, ts, i) <==> s[i] > s[i - 1] {
      assert Repaired1(pkts, ts, i);
    }
    if Rising(s) {
      forall i | 0 < i < |ts| ensures Keeps(pkts, ts, i) {
        assert s[i] > s[i - 1];
      }
    }
    if forall i :: 0 < i < |ts| ==> Keeps(pkts, ts, i) {
      forall i | 0 < i < |s| ensures s[i] > s[i - 1] {
        assert Keeps(pkts, ts, i);
      }
    }
  }

  /** No packet whose presentation time can be moved is directly followed by one without. */
  predicate Unbroken(pkts: seq<Packet>) {
    forall i :: 0 < i < |pkts| && HasPts(pkts, i - 1) ==> HasPts(pkts, i)
  }

  lemma UnbrokenRises(pkts: seq<Packet>, ts: seq<Times>)
    requires Repaired(pkts, ts) && Unbroken(pkts)
    ensures Rising(PtsOf(ts))
  {
    PtsRisesExactly(pkts, ts);
    forall i | 0 < i < |ts| ensures Keeps(pkts, ts, i) {
      assert Repaired1(pkts, ts, i) && Repaired1(pkts, ts, i - 1);
    }
  }

  /** If every packet but perhaps the first has a presentation time, they rise, whatever decoding times
      are missing. */
  lemma PtsRises(pkts: seq<Packet>, ts: seq<Times>)
    requires Repaired(pkts, ts) && forall i :: 0 < i < |pkts| ==> pkts[i].pts.At?
    ensures Rising(PtsOf(ts))
  {
    UnbrokenRises(pkts, ts);
  }

  /** The same decoding times, and presentation times on the same packets. */
  ghost predicate Alike(p: seq<Packet>, q: seq<Packet>) {
    |p| == |q| && forall i :: 0 <= i < |p| ==> p[i].dts == q[i].dts && (p[i].pts.At? <==> q[i].pts.At?)
  }

  lemma {:induction false} AlikeBase(p: seq<Packet>, q: seq<Packet>, n: nat)
    requires Alike(p, q) && n <= |p|
    ensures Base(p, n) == Base(q, n)
  {
    if n > 0 { AlikeBase(p, q, n - 1); }
  }

  lemma {:induction false} AlikeDts(p: seq<Packet>, q: seq<Packet>, ts: seq<Times>, us: seq<Times>, i: nat)
    requires Alike(p, q) && Repaired(p, ts) && Repaired(q, us) && i < |p|
    ensures ts[i].dts == us[i].dts
  {
    assert Repaired1(p, ts, i) && Repaired1(q, us, i);
    AlikeBase(p, q, i + 1);
    if i > 0 { AlikeDts(p, q, ts, us, i - 1); }
  }

  /** Every run has its repair. */
  lemma {:induction false} RepairTo(pkts: seq<Packet>, n: nat) returns (ts: seq<Times>)
    requires n <= |pkts|
    ensures |ts| == n && forall i :: 0 <= i < n ==> Repaired1(pkts, ts, i)
  {
    ts := [];
    if n > 0 {
      var before := RepairTo(pkts, n - 1);
      var d := Max(if n == 1 then 1 else before[n - 2].dts + 1, WantedDts(pkts, n - 1));
      var w := WantedPts(pkts, n - 1);
      var p := if !HasPts(pkts, n - 1) then d
               else Max(Max(if n == 1 then w + 1 else before[n - 2].pts + 1, w), d);
      ts := before + [Times(d, p)];
      forall i | 0 <= i < n ensures Repaired1(pkts, ts, i) {
        if i < n - 1 { assert Repaired1(pkts, before, i); }
      }
    }
  }

  /** Where the presentation times break off, they fall for some values of the one before. */
  lemma BrokenFalls(pkts: seq<Packet>, i: nat) returns (other: seq<Packet>, us: seq<Times>)
    requires 0 < i < |pkts| && HasPts(pkts, i - 1) && !HasPts(pkts, i)
    ensures Alike(pkts, other) && Repaired(other, us) && !Rising(PtsOf(us))
  {
    var ts := RepairTo(pkts, |pkts|);
    other := pkts[i - 1 := pkts[i - 1].(pts := At(Base(pkts, i).t + Max(ts[i].dts, 1)))];
    us := RepairTo(other, |pkts|);
    AlikeBase(pkts, other, i);
    AlikeBase(pkts, other, i + 1);
    AlikeDts(pkts, other, ts, us, i);
    assert Repaired1(other, us, i - 1) && Repaired1(other, us, i);
    assert us[i - 1].pts >= WantedPts(other, i - 1) >= us[i].dts == us[i].pts;
    assert PtsOf(us)[i] == us[i].pts && PtsOf(us)[i - 1] == us[i - 1].pts;
  }

  /** Whatever the presentation times are, they are repaired to rise, exactly when none breaks off. */
  lemma PtsRisesByPattern(pkts: seq<Packet>)
    ensures Unbroken(pkts) <==>
      forall other: seq<Packet>, us: seq<Times> :: Alike(pkts, other) && Repaired(other, us) ==> Rising(PtsOf(us))
  {
    if Unbroken(pkts) {
      forall other: seq<Packet>, us: seq<Times> | Alike(pkts, other) && Repaired(other, us) ensures Rising(PtsOf(us)) {
        forall i | 0 < i < |pkts| && HasPts(other, i - 1) ensures HasPts(other, i) {
          AlikeBase(pkts, other, i);
          AlikeBase(pkts, other, i + 1);
          assert other[i - 1].pts.At? <==> pkts[i - 1].pts.At?;
          assert HasPts(pkts, i - 1) && HasPts(pkts, i);
          assert pkts[i].pts.At? <==> other[i].pts.At?;
        }
        UnbrokenRises(other, us);
      }
    } else {
      var i :| 0 < i < |pkts| && HasPts(pkts, i - 1) && !HasPts(pkts, i);
      var other, us := BrokenFalls(pkts, i);
    }
  }

  /** A packet without a presentation time can fall back: decoding times 0 and 1 with presentation times
      10 and none. */
  lemma PtsCanFall(ts: seq<Times>)
    requires Repaired([Packet(At(0), At(10)), Packet(At(1), NoPts)], ts)
    ensures ts[0].pts == 11 && ts[1].pts == 2
  {
    var pkts := [Packet(At(0), At(10)), Packet(At(1), NoPts)];
    assert Repaired1(pkts, ts, 0) && Repaired1(pkts, ts, 1);
    FirstIsBase(pkts, 0);
    FirstIsBase(pkts, 1);
    assert Base(pkts, 0) == NoPts;
  }

  /** Presentation times that rise, start above the first wanted one, and are never below their wanted
      values and the decoding times. */
  ghost predicate GoodPts(pkts: seq<Packet>, ts: seq<Times>, p: seq<int>)
    requires |ts| == |pkts|
  {
    && |p| == |pkts| && Rising(p) && (|p| > 0 ==> p[0] > WantedPts(pkts, 0))
    && forall i :: 0 <= i < |p| ==> p[i] >= WantedPts(pkts, i) && p[i] >= ts[i].dts
  }

  /** When all presentation times can be moved, they too are the least that are good. */
  lemma PtsLeast(pkts: seq<Packet>, ts: seq<Times>, other: seq<int>)
    requires Repaired(pkts, ts) && forall i :: 0 <= i < |pkts| ==> HasPts(pkts, i)
    ensures GoodPts(pkts, ts, PtsOf(ts))
    ensures GoodPts(pkts, ts, other) ==> Pointwise(PtsOf(ts), other)
  {
    forall i | 0 <= i < |ts|
      ensures ts[i].pts >= WantedPts(pkts, i) && ts[i].pts >= ts[i].dts && (i > 0 ==> ts[i].pts > ts[i - 1].pts)
      ensures i == 0 ==> ts[i].pts > WantedPts(pkts, 0)
    {
      assert Repaired1(pkts, ts, i);
    }
    if GoodPts(pkts, ts, other) {
      forall i | 0 <= i < |ts| ensures ts[i].pts <= other[i] {
        PtsBelow(pkts, ts, other, i);
      }
    }
  }

  lemma {:induction false} PtsBelow(pkts: seq<Packet>, ts: seq<Times>, other: seq<int>, i: nat)
    requires Repaired(pkts, ts) && GoodPts(pkts, ts, other) && i < |ts|
    requires forall k :: 0 <= k < |pkts| ==> HasPts(pkts, k)
    ensures ts[i].pts <= other[i]
  {
    assert Repaired1(pkts, ts, i);
    if i > 0 { PtsBelow(pkts, ts, other, i - 1); }
  }
}
