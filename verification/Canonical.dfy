/**
 * A canonical text of the material of a decision, from which the material can be read back: every
 * field is written with its end marked, so different materials have different texts.
 */
module Canonical {
  import opened Wrappers
  import opened Policy
  import opened Decision

  /** A text with its end marked: each character behind an 'x', then an 'e'. */
  function Marked(s: string): string {
    if s == "" then "e" else ['x', s[0]] + Marked(s[1..])
  }

  /** A list of texts with its end marked. */
  function Joined(fields: seq<string>): string {
    if fields == [] then "n" else "f" + Marked(fields[0]) + Joined(fields[1..])
  }

  lemma {:induction false} MarkedIsReadable(a: string, x: string, b: string, y: string)
    requires Marked(a) + x == Marked(b) + y
    ensures a == b && x == y
  {
    var left, right := Marked(a) + x, Marked(b) + y;
    assert left[0] == (if a == "" then 'e' else 'x') && right[0] == (if b == "" then 'e' else 'x');
    if a == "" {
      assert x == left[1..] && y == right[1..];
    } else {
      assert left[1] == a[0] && right[1] == b[0];
      assert left[2..] == Marked(a[1..]) + x && right[2..] == Marked(b[1..]) + y;
      MarkedIsReadable(a[1..], x, b[1..], y);
      assert a == [a[0]] + a[1..] && b == [b[0]] + b[1..];
    }
  }

  lemma {:induction false} JoinedIsReadable(a: seq<string>, b: seq<string>)
    requires Joined(a) == Joined(b)
    ensures a == b
  {
    assert Joined(a)[0] == (if a == [] then 'n' else 'f') && Joined(b)[0] == (if b == [] then 'n' else 'f');
    if a != [] {
      assert Joined(a)[1..] == Marked(a[0]) + Joined(a[1..]) && Joined(b)[1..] == Marked(b[0]) + Joined(b[1..]);
      MarkedIsReadable(a[0], Joined(a[1..]), b[0], Joined(b[1..]));
      JoinedIsReadable(a[1..], b[1..]);
      assert a == [a[0]] + a[1..] && b == [b[0]] + b[1..];
    }
  }

  /** A whole number as a sign and that many strokes. */
  function NumberText(n: int): string {
    if n < 0 then "-" + seq(-n, _ => '1') else "+" + seq(n, _ => '1')
  }

  function OptionText(n: Option<int>): string {
    if n.None? then "" else NumberText(n.value)
  }

  lemma NumbersAreReadable(m: int, n: int)
    requires NumberText(m) == NumberText(n)
    ensures m == n
  {
    assert NumberText(m)[0] == (if m < 0 then '-' else '+') && NumberText(n)[0] == (if n < 0 then '-' else '+');
    assert |NumberText(m)| == 1 + (if m < 0 then -m else m) && |NumberText(n)| == 1 + (if n < 0 then -n else n);
  }

  lemma OptionsAreReadable(m: Option<int>, n: Option<int>)
    requires OptionText(m) == OptionText(n)
    ensures m == n
  {
    assert m.Some? ==> |OptionText(m)| > 0;
    assert n.Some? ==> |OptionText(n)| > 0;
    if m.Some? && n.Some? { NumbersAreReadable(m.value, n.value); }
  }

  function KindText(kind: TargetKind): string {
    if kind.IpTarget? then "ip" else "host"
  }

  function SignalFields(s: Signal): seq<string> {
    [NumberText(KindRank(s.kind)), s.reference, NumberText(s.observedAt), KindText(s.target.kind), s.target.value,
     OptionText(s.severity), OptionText(s.count), OptionText(s.confidence)]
  }

  lemma SignalsAreReadable(s: Signal, t: Signal)
    requires SignalFields(s) == SignalFields(t)
    ensures s == t
  {
    var a, b := SignalFields(s), SignalFields(t);
    assert forall i :: 0 <= i < 8 ==> a[i] == b[i];
    NumbersAreReadable(KindRank(s.kind), KindRank(t.kind));
    NumbersAreReadable(s.observedAt, t.observedAt);
    OptionsAreReadable(s.severity, t.severity);
    OptionsAreReadable(s.count, t.count);
    OptionsAreReadable(s.confidence, t.confidence);
    assert |KindText(s.target.kind)| == |KindText(t.target.kind)|;
  }

  function SignalTexts(signals: seq<Signal>): seq<string> {
    if signals == [] then [] else [Joined(SignalFields(signals[0]))] + SignalTexts(signals[1..])
  }

  lemma {:induction false} SignalListsAreReadable(a: seq<Signal>, b: seq<Signal>)
    requires SignalTexts(a) == SignalTexts(b)
    ensures a == b
  {
    assert (SignalTexts(a) == [] <==> a == []) && (SignalTexts(b) == [] <==> b == []);
    if a != [] {
      var left, right := SignalTexts(a), SignalTexts(b);
      assert left[0] == right[0] && left[1..] == right[1..];
      JoinedIsReadable(SignalFields(a[0]), SignalFields(b[0]));
      SignalsAreReadable(a[0], b[0]);
      SignalListsAreReadable(a[1..], b[1..]);
      assert a == [a[0]] + a[1..] && b == [b[0]] + b[1..];
    }
  }

  function MaterialText(m: Material): string {
    Joined([m.policyId, m.policySha256, m.eventId, KindText(m.target.kind), m.target.value] + SignalTexts(m.signals))
  }

  function RequestText(r: RequestMaterial): string {
    Joined([r.decisionId, MaterialText(r.material)])
  }

  /** Different materials have different texts. */
  lemma MaterialIsReadable(m: Material, n: Material)
    requires MaterialText(m) == MaterialText(n)
    ensures m == n
  {
    var a := [m.policyId, m.policySha256, m.eventId, KindText(m.target.kind), m.target.value];
    var b := [n.policyId, n.policySha256, n.eventId, KindText(n.target.kind), n.target.value];
    JoinedIsReadable(a + SignalTexts(m.signals), b + SignalTexts(n.signals));
    var left, right := a + SignalTexts(m.signals), b + SignalTexts(n.signals);
    assert left[..5] == a && right[..5] == b && left[5..] == SignalTexts(m.signals) && right[5..] == SignalTexts(n.signals);
    assert forall i :: 0 <= i < 5 ==> a[i] == b[i];
    assert a[0] == b[0] && a[1] == b[1] && a[2] == b[2] && a[3] == b[3] && a[4] == b[4];
    assert |KindText(m.target.kind)| == |KindText(n.target.kind)|;
    SignalListsAreReadable(m.signals, n.signals);
  }

  lemma RequestIsReadable(r: RequestMaterial, q: RequestMaterial)
    requires RequestText(r) == RequestText(q)
    ensures r == q
  {
    JoinedIsReadable([r.decisionId, MaterialText(r.material)], [q.decisionId, MaterialText(q.material)]);
    var a, b := [r.decisionId, MaterialText(r.material)], [q.decisionId, MaterialText(q.material)];
    assert a[0] == b[0] && a[1] == b[1];
    MaterialIsReadable(r.material, q.material);
  }
}
