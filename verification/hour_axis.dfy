/** The fixed hour axis of the chart: one bucket per hour from 06:00 to
    22:00, each keyed by the label `"{h}:00 - {h+1}:00"`. */
module HourAxis {
  import opened Decimal

  const FirstHour: nat := 6
  const EndHour: nat := 22
  const AxisLength: nat := EndHour - FirstHour

  predicate OnAxis(h: nat) {
    FirstHour <= h < EndHour
  }

  /** The bucket label for hour `h`, as the template `${h}:00 - ${h+1}:00` prints it. */
  function Label(h: nat): string {
    DigitsOf(h) + ":00 - " + DigitsOf(h + 1) + ":00"
  }

  /** Recovers the hour from a label: the number its leading digits spell. */
  function HourOfLabel(text: string): nat {
    ParseDigits(LeadingDigits(text))
  }

  lemma LabelRoundTrip(h: nat)
    ensures HourOfLabel(Label(h)) == h
  {
    var rest := ":00 - " + DigitsOf(h + 1) + ":00";
    assert Label(h) == DigitsOf(h) + rest;
    LeadingDigitsOfNumeral(DigitsOf(h), rest);
    ParseDigitsOf(h);
  }

  lemma LabelInjective(h: nat, k: nat)
    ensures Label(h) == Label(k) <==> h == k
  {
    if Label(h) == Label(k) {
      LabelRoundTrip(h);
      LabelRoundTrip(k);
    }
  }

  /** The labels in axis order, as the initialisation loop creates them. */
  function AxisLabels(): (labels: seq<string>)
    ensures |labels| == AxisLength
    ensures forall i, j :: 0 <= i < j < |labels| ==> labels[i] != labels[j]
  {
    var labels := seq(AxisLength, i requires 0 <= i < AxisLength => Label(FirstHour + i));
    AxisLabelsDistinct(labels);
    labels
  }

  lemma AxisLabelsDistinct(labels: seq<string>)
    requires labels == seq(AxisLength, i requires 0 <= i < AxisLength => Label(FirstHour + i))
    ensures forall i, j :: 0 <= i < j < |labels| ==> labels[i] != labels[j]
  {
    forall i, j | 0 <= i < j < |labels|
      ensures labels[i] != labels[j]
    {
      LabelInjective(FirstHour + i, FirstHour + j);
    }
  }

  /** The label of an on-axis hour sits at position `h - FirstHour`, and an
      off-axis hour has no label on the axis. */
  lemma AxisPosition(h: nat)
    ensures OnAxis(h) ==> AxisLabels()[h - FirstHour] == Label(h)
    ensures Label(h) in AxisLabels() <==> OnAxis(h)
  {
    if Label(h) in AxisLabels() {
      var i :| 0 <= i < AxisLength && AxisLabels()[i] == Label(h);
      LabelInjective(h, FirstHour + i);
    }
    if OnAxis(h) {
      assert AxisLabels()[h - FirstHour] == Label(h);
    }
  }

  /** Every other hour has a different label. */
  lemma LabelsDiffer(h: nat)
    ensures forall k: nat :: k != h ==> Label(k) != Label(h)
  {
    forall k: nat | k != h
      ensures Label(k) != Label(h)
    {
      LabelInjective(k, h);
    }
  }
}
