/** Publication stamps of capture samples (the stamp loop of `analyze_case` in report.py). */
module Stamps {
  import opened Wrappers
  import opened Sets

  datatype Sample = Sample(stream: string, epoch: int, sequence: int, geometry: int)

  /** The order the loop requires between two samples of one stream. */
  predicate Follows(previous: Sample, sample: Sample) {
    && (sample.epoch > previous.epoch || (sample.epoch == previous.epoch && sample.sequence > previous.sequence))
    && (sample.epoch == previous.epoch ==> sample.geometry >= previous.geometry)
  }

  /** The last sample of a stream. */
  function LastOf(samples: seq<Sample>, stream: string): Option<Sample> {
    if samples == [] then None
    else
      var last := samples[|samples| - 1];
      if last.stream == stream then Some(last) else LastOf(samples[..|samples| - 1], stream)
  }

  function GapAfter(previous: Option<Sample>, sample: Sample): nat {
    if previous.Some? && previous.value.epoch == sample.epoch && sample.sequence > previous.value.sequence
    then sample.sequence - previous.value.sequence - 1 else 0
  }

  /** The sum of the gaps between neighbours of one stream inside one epoch. */
  function Gaps(samples: seq<Sample>): nat {
    if samples == [] then 0
    else
      var front, last := samples[..|samples| - 1], samples[|samples| - 1];
      Gaps(front) + GapAfter(LastOf(front, last.stream), last)
  }

  /** Any two samples of one stream are in order, however streams interleave. */
  predicate Ordered(samples: seq<Sample>) {
    forall i, j | 0 <= i < j < |samples| && samples[i].stream == samples[j].stream :: Follows(samples[i], samples[j])
  }

  lemma {:induction false} LastIndex(samples: seq<Sample>, stream: string) returns (k: int)
    ensures k < |samples|
    ensures LastOf(samples, stream).Some? <==> k >= 0
    ensures k >= 0 ==> samples[k].stream == stream && LastOf(samples, stream) == Some(samples[k])
    ensures forall i | 0 <= i < |samples| && samples[i].stream == stream :: i <= k
  {
    k := |samples| - 1;
    if k >= 0 && samples[k].stream != stream {
      var front := samples[..k];
      k := LastIndex(front, stream);
      assert forall i | 0 <= i < |front| :: samples[i] == front[i];
    }
  }

  /** One more sample keeps the order exactly when it follows the last sample of its stream. */
  lemma OrderedMore(samples: seq<Sample>, sample: Sample)
    ensures Ordered(samples + [sample]) <==>
              && Ordered(samples)
              && (LastOf(samples, sample.stream).Some? ==> Follows(LastOf(samples, sample.stream).value, sample))
  {
    var k := LastIndex(samples, sample.stream);
    var more := samples + [sample];
    assert forall i | 0 <= i < |samples| :: more[i] == samples[i];
    assert more[|samples|] == sample;
    if Ordered(more) && k >= 0 {
      assert Follows(more[k], more[|samples|]);
    }
    if Ordered(samples) && k >= 0 && Follows(samples[k], sample) {
      forall i | 0 <= i < |samples| && samples[i].stream == sample.stream ensures Follows(samples[i], sample) {
        assert i < k ==> Follows(samples[i], samples[k]);
      }
    }
  }

  /** Between any two samples of a stream the epoch rises, or stays while the sequence rises and the geometry does not fall. */
  lemma OrderedIs(samples: seq<Sample>)
    ensures Ordered(samples) <==>
            forall i, j | 0 <= i < j < |samples| && samples[i].stream == samples[j].stream ::
              || samples[i].epoch < samples[j].epoch
              || (samples[i].epoch == samples[j].epoch && samples[i].sequence < samples[j].sequence
                  && samples[i].geometry <= samples[j].geometry)
  {
  }

  /** The stamp loop: the gate holds exactly when every stream is in order. */
  method Analyze(samples: seq<Sample>) returns (stampsOrdered: bool, sequenceGaps: nat)
    ensures stampsOrdered <==>
            forall i, j | 0 <= i < j < |samples| && samples[i].stream == samples[j].stream ::
              || samples[i].epoch < samples[j].epoch
              || (samples[i].epoch == samples[j].epoch && samples[i].sequence < samples[j].sequence
                  && samples[i].geometry <= samples[j].geometry)
    ensures sequenceGaps == Gaps(samples)
  {
    hide Ordered, Follows;
    var previousByStream: map<string, Sample> := map[];
    stampsOrdered, sequenceGaps := true, 0;
    assert Ordered(samples[..0]) by { NothingOrdered(samples); }
    for i := 0 to |samples|
      invariant forall stream :: LastOf(samples[..i], stream) ==
                                 if stream in previousByStream then Some(previousByStream[stream]) else None
      invariant stampsOrdered <==> Ordered(samples[..i])
      invariant sequenceGaps == Gaps(samples[..i])
    {
      var sample := samples[i];
      assert samples[..i + 1] == samples[..i] + [sample] && samples[..i + 1][..i] == samples[..i];
      OrderedMore(samples[..i], sample);
      if sample.stream in previousByStream {
        var previous := previousByStream[sample.stream];
        stampsOrdered := stampsOrdered && Follows(previous, sample);
        if sample.epoch == previous.epoch {
          var gap := sample.sequence - previous.sequence - 1;
          sequenceGaps := sequenceGaps + if gap > 0 then gap else 0;
        }
      }
      previousByStream := previousByStream[sample.stream := sample];
    }
    assert samples[..|samples|] == samples;
    OrderedIs(samples);
  }

  lemma NothingOrdered(samples: seq<Sample>)
    ensures Ordered(samples[..0])
  {
  }

  // ----- conservation ---------------------------------------------------------------------------

  type Group = (string, int)

  function GroupOf(sample: Sample): Group {
    (sample.stream, sample.epoch)
  }

  function Groups(samples: seq<Sample>): set<Group> {
    set sample | sample in samples :: GroupOf(sample)
  }

  /** The sequence numbers of a stream in an epoch, in the order of publication. */
  function Members(samples: seq<Sample>, group: Group): seq<int> {
    if samples == [] then []
    else
      var last := samples[|samples| - 1];
      Members(samples[..|samples| - 1], group) + if GroupOf(last) == group then [last.sequence] else []
  }

  /** last - first - (count - 1): the sequence numbers between the first and the last that were never published. */
  function Span(members: seq<int>): int {
    if members == [] then 0 else members[|members| - 1] - members[0] - (|members| - 1)
  }

  function Missing(samples: seq<Sample>, group: Group): nat {
    var span := Span(Members(samples, group));
    if span > 0 then span else 0
  }

  ghost function MissingIn(samples: seq<Sample>): Group -> nat {
    group => Missing(samples, group)
  }

  lemma {:induction false} MembersOfGroup(samples: seq<Sample>, group: Group)
    ensures Members(samples, group) != [] <==> group in Groups(samples)
    ensures LastOf(samples, group.0).Some? && LastOf(samples, group.0).value.epoch == group.1 ==>
              var m := Members(samples, group);
              m != [] && m[|m| - 1] == LastOf(samples, group.0).value.sequence
  {
    if samples != [] {
      var front, last := samples[..|samples| - 1], samples[|samples| - 1];
      MembersOfGroup(front, group);
      assert samples == front + [last];
      assert Groups(samples) == Groups(front) + {GroupOf(last)};
    }
  }

  /** In order, a stream that returns to an epoch never left it. */
  lemma SameEpoch(samples: seq<Sample>, sample: Sample)
    requires Ordered(samples + [sample]) && GroupOf(sample) in Groups(samples)
    ensures LastOf(samples, sample.stream).Some? && LastOf(samples, sample.stream).value.epoch == sample.epoch
    ensures LastOf(samples, sample.stream).value.sequence < sample.sequence
  {
    var other :| other in samples && GroupOf(other) == GroupOf(sample);
    var i :| 0 <= i < |samples| && samples[i] == other;
    var k := LastIndex(samples, sample.stream);
    var more := samples + [sample];
    assert more[i] == other && more[k] == samples[k] && more[|samples|] == sample;
    assert Follows(more[k], more[|samples|]);
    assert i < k ==> Follows(more[i], more[k]);
  }

  /** Total gaps are conserved: over the streams and epochs, last - first - (count - 1) adds up to the gap count. */
  lemma {:induction false} GapsConserved(samples: seq<Sample>)
    requires Ordered(samples)
    ensures Gaps(samples) == Sum(Groups(samples), MissingIn(samples))
    ensures forall group :: Span(Members(samples, group)) >= 0
  {
    if samples != [] {
      var front, last := samples[..|samples| - 1], samples[|samples| - 1];
      assert samples == front + [last];
      OrderedMore(front, last);
      GapsConserved(front);
      MissingMore(front, last);
      hide Ordered, Follows, Missing;
      var group := GroupOf(last);
      assert Groups(samples) == Groups(front) + {group};
      SumOut(Groups(samples), MissingIn(samples), group);
      assert Groups(samples) - {group} == Groups(front) - {group};
      SumSame(Groups(front) - {group}, MissingIn(front), MissingIn(samples));
      if group in Groups(front) {
        SumOut(Groups(front), MissingIn(front), group);
      } else {
        assert Groups(front) - {group} == Groups(front);
      }
    }
  }

  lemma MissingMore(front: seq<Sample>, last: Sample)
    requires Ordered(front + [last]) && forall group :: Span(Members(front, group)) >= 0
    ensures var samples := front + [last];
            && (forall group | group != GroupOf(last) :: Members(samples, group) == Members(front, group))
            && Span(Members(samples, GroupOf(last))) >= 0
            && Missing(samples, GroupOf(last)) ==
               (if GroupOf(last) in Groups(front) then Missing(front, GroupOf(last)) else 0) +
               GapAfter(LastOf(front, last.stream), last)
  {
    var group := GroupOf(last);
    var samples := front + [last];
    assert samples[..|samples| - 1] == front;
    MembersOfGroup(front, group);
    if group in Groups(front) {
      SameEpoch(front, last);
      SpanMore(Members(front, group), last.sequence);
    }
  }

  lemma SpanMore(members: seq<int>, sequence: int)
    requires members != []
    ensures Span(members + [sequence]) == Span(members) + (sequence - members[|members| - 1] - 1)
  {
  }

  /** The gap count depends only on what each stream published in each epoch, not on how the streams interleave. */
  lemma InterleavingIndependent(a: seq<Sample>, b: seq<Sample>)
    requires Ordered(a) && Ordered(b) && forall group :: Members(a, group) == Members(b, group)
    ensures Gaps(a) == Gaps(b)
  {
    hide Members, Ordered, Missing;
    GapsConserved(a);
    GapsConserved(b);
    forall group ensures group in Groups(a) <==> group in Groups(b) {
      MembersOfGroup(a, group);
      MembersOfGroup(b, group);
    }
    assert Groups(a) == Groups(b);
    forall group ensures Missing(a, group) == Missing(b, group) {
      SameMissing(a, b, group);
    }
    SumSame(Groups(a), MissingIn(a), MissingIn(b));
  }

  lemma SameMissing(a: seq<Sample>, b: seq<Sample>, group: Group)
    requires Members(a, group) == Members(b, group)
    ensures Missing(a, group) == Missing(b, group)
  {
  }
}
