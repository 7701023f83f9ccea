/** Shapes left after the customer's feedback on past resize recommendations. */
module ShapeFeedback {
  import opened Wrappers
  import Actions
  import opened ShapeRules
  import Sequences

  const SHAPES_COUNT_TO_ADJUST := 3

  /** A shape of a past recommendation, as stored. */
  datatype PastShape = PastShape(name: Option<string>, cpu: Option<real>, memory: Option<real>)

  datatype ResizeFeedback = ResizeFeedback(status: Actions.FeedbackStatus, shapes: seq<PastShape>)
  {
    /** Only the first three shapes are looked at. */
    function Considered(): seq<PastShape> {
      if |shapes| > SHAPES_COUNT_TO_ADJUST then shapes[..SHAPES_COUNT_TO_ADJUST] else shapes
    }
  }

  function Numbers(values: seq<Option<real>>): (numbers: seq<real>)
    ensures forall x :: x in numbers <==> Some(x) in values
  {
    if values == [] then []
    else
      assert values == [values[0]] + values[1..];
      (if values[0].Some? then [values[0].value] else []) + Numbers(values[1..])
  }

  function Cpus(shapes: seq<PastShape>): seq<real> {
    Numbers(Sequences.Map(shapes, (s: PastShape) => s.cpu))
  }

  function Memories(shapes: seq<PastShape>): seq<real> {
    Numbers(Sequences.Map(shapes, (s: PastShape) => s.memory))
  }

  /** `max` and `min` of a list that is not empty */
  function Greatest(xs: seq<real>): (m: real)
    requires xs != []
    ensures m in xs && forall x | x in xs :: x <= m
  {
    if |xs| == 1 then xs[0]
    else
      assert xs == [xs[0]] + xs[1..];
      var m := Greatest(xs[1..]);
      if xs[0] > m then xs[0] else m
  }

  function Least(xs: seq<real>): (m: real)
    requires xs != []
    ensures m in xs && forall x | x in xs :: m <= x
  {
    if |xs| == 1 then xs[0]
    else
      assert xs == [xs[0]] + xs[1..];
      var m := Least(xs[1..]);
      if xs[0] < m then xs[0] else m
  }

  /** The thresholds of a size complaint exist. */
  predicate IsUsable(f: ResizeFeedback) {
    f.status in {Actions.TooSmall, Actions.TooLarge} ==>
      Cpus(f.Considered()) != [] && Memories(f.Considered()) != []
  }

  /** What the feedback leaves of one shape. */
  predicate Passes(s: Shape, f: ResizeFeedback)
    requires IsUsable(f)
  {
    match f.status
    case TooSmall =>
      var cpu, memory := Greatest(Cpus(f.Considered())), Greatest(Memories(f.Considered()));
      s.cpu >= cpu && s.memory >= memory && (s.cpu != cpu || memory != s.memory)
    case TooLarge =>
      var cpu, memory := Least(Cpus(f.Considered())), Least(Memories(f.Considered()));
      s.cpu <= cpu && s.memory <= memory && (s.cpu != cpu || memory != s.memory)
    case Wrong => s.name == "" || forall p | p in f.Considered() :: p.name != Some(s.name)
    case DontRecommend => false
    case _ => true
  }

  /** One of the first three past shapes. */
  ghost predicate IsConsidered(f: ResizeFeedback, p: PastShape) {
    exists i :: 0 <= i < |f.shapes| && i < 3 && f.shapes[i] == p
  }

  lemma ConsideredIff(f: ResizeFeedback, p: PastShape)
    ensures p in f.Considered() <==> IsConsidered(f, p)
  {}

  lemma NumbersOf(f: ResizeFeedback)
    ensures forall x :: x in Cpus(f.Considered()) <==> exists p :: IsConsidered(f, p) && p.cpu == Some(x)
    ensures forall x :: x in Memories(f.Considered()) <==> exists p :: IsConsidered(f, p) && p.memory == Some(x)
  {
    hide IsConsidered;
    var past := f.Considered();
    forall p ensures p in past <==> IsConsidered(f, p) {
      ConsideredIff(f, p);
    }
    assert forall i | 0 <= i < |past| :: past[i] in past;
  }

  /** After a shape was too small, one at least as large as all the past ones is left, and larger than all of them in
      CPU or in memory; after one was too large the reverse. */
  lemma SizePassesIff(s: Shape, f: ResizeFeedback)
    requires IsUsable(f) && f.status in {Actions.TooSmall, Actions.TooLarge}
    ensures f.status == Actions.TooSmall ==>
              (Passes(s, f) <==>
               && (forall p | IsConsidered(f, p) && p.cpu.Some? :: s.cpu >= p.cpu.value)
               && (forall p | IsConsidered(f, p) && p.memory.Some? :: s.memory >= p.memory.value)
               && (|| (forall p | IsConsidered(f, p) && p.cpu.Some? :: s.cpu > p.cpu.value)
                   || (forall p | IsConsidered(f, p) && p.memory.Some? :: s.memory > p.memory.value)))
    ensures f.status == Actions.TooLarge ==>
              (Passes(s, f) <==>
               && (forall p | IsConsidered(f, p) && p.cpu.Some? :: s.cpu <= p.cpu.value)
               && (forall p | IsConsidered(f, p) && p.memory.Some? :: s.memory <= p.memory.value)
               && (|| (forall p | IsConsidered(f, p) && p.cpu.Some? :: s.cpu < p.cpu.value)
                   || (forall p | IsConsidered(f, p) && p.memory.Some? :: s.memory < p.memory.value)))
  {
    NumbersOf(f);
    hide IsConsidered, Cpus, Memories, Greatest, Least;
  }

  /** The other answers: a wrong shape leaves out the past names, don't-recommend leaves nothing, and a size complaint
      without numbers raises. */
  lemma OtherAnswers(s: Shape, f: ResizeFeedback)
    ensures IsUsable(f) <==>
            (f.status in {Actions.TooSmall, Actions.TooLarge} ==>
               (exists p :: IsConsidered(f, p) && p.cpu.Some?) && exists p :: IsConsidered(f, p) && p.memory.Some?)
    ensures IsUsable(f) && f.status !in {Actions.TooSmall, Actions.TooLarge} ==>
              (Passes(s, f) <==>
               && f.status != Actions.DontRecommend
               && (f.status == Actions.Wrong && s.name != "" ==>
                     forall p | IsConsidered(f, p) :: p.name != Some(s.name)))
  {
    NumbersOf(f);
    forall p ensures p in f.Considered() <==> IsConsidered(f, p) {
      ConsideredIff(f, p);
    }
    hide IsConsidered, Cpus, Memories;
    var cpus, memories := Cpus(f.Considered()), Memories(f.Considered());
    assert cpus != [] ==> cpus[0] in cpus;
    assert memories != [] ==> memories[0] in memories;
    forall p | IsConsidered(f, p)
      ensures p.cpu.Some? ==> p.cpu.value in cpus
      ensures p.memory.Some? ==> p.memory.value in memories
    {}
  }

  function AdjustedBy(shapes: seq<Shape>, f: ResizeFeedback): (r: seq<Shape>)
    requires IsUsable(f)
    ensures forall s :: s in r <==> s in shapes && Passes(s, f)
  {
    Sequences.Filter(shapes, (s: Shape) => Passes(s, f))
  }

  /** `apply_adjustment`; None where a size complaint carries no numbers and the maximum raises. */
  function Adjusted(shapes: seq<Shape>, feedback: seq<ResizeFeedback>): Option<seq<Shape>> {
    if feedback == [] then Some(shapes)
    else
      var last := feedback[|feedback| - 1];
      var rest := Adjusted(shapes, feedback[..|feedback| - 1]);
      if rest.None? || !IsUsable(last) then None else Some(AdjustedBy(rest.value, last))
  }

  /** The order of the feedback is irrelevant to which shapes are left. */
  lemma {:induction false} AdjustedMembers(shapes: seq<Shape>, feedback: seq<ResizeFeedback>)
    ensures Adjusted(shapes, feedback).Some? <==> forall f | f in feedback :: IsUsable(f)
    ensures Adjusted(shapes, feedback).Some? ==>
              forall s :: s in Adjusted(shapes, feedback).value <==>
                  s in shapes && forall f | f in feedback :: Passes(s, f)
  {
    hide IsUsable, Passes;
    if feedback != [] {
      var front, last := feedback[..|feedback| - 1], feedback[|feedback| - 1];
      assert feedback == front + [last];
      AdjustedMembers(shapes, front);
    }
  }

  method ApplyAdjustment(shapes: seq<Shape>, feedback: seq<ResizeFeedback>) returns (adjusted: Option<seq<Shape>>)
    ensures adjusted == Adjusted(shapes, feedback)
  {
    hide IsUsable, Passes, AdjustedBy;
    var left := shapes;
    for i := 0 to |feedback|
      invariant Adjusted(shapes, feedback[..i]) == Some(left)
    {
      assert feedback[..i + 1][..i] == feedback[..i];
      var next := Adjust(left, feedback[i]);
      if next.None? {
        NoneStays(shapes, feedback, i + 1);
        return None;
      }
      left := next.value;
    }
    assert feedback[..|feedback|] == feedback;
    adjusted := Some(left);
  }

  lemma {:induction false} NoneStays(shapes: seq<Shape>, feedback: seq<ResizeFeedback>, n: nat)
    requires n <= |feedback| && Adjusted(shapes, feedback[..n]).None?
    ensures Adjusted(shapes, feedback).None?
    decreases |feedback| - n
  {
    if n == |feedback| {
      assert feedback[..n] == feedback;
    } else {
      assert feedback[..n + 1][..n] == feedback[..n];
      NoneStays(shapes, feedback, n + 1);
    }
  }

  /** The handlers of the four statuses. */
  method Adjust(shapes: seq<Shape>, f: ResizeFeedback) returns (adjusted: Option<seq<Shape>>)
    ensures adjusted == if IsUsable(f) then Some(AdjustedBy(shapes, f)) else None
  {
    if f.status !in {Actions.TooSmall, Actions.TooLarge, Actions.Wrong, Actions.DontRecommend} {
      Sequences.FilterAll(shapes, (s: Shape) => Passes(s, f));
      return Some(shapes);
    }
    if f.status == Actions.DontRecommend {
      Sequences.FilterNone(shapes, (s: Shape) => Passes(s, f));
      return Some([]);
    }
    if !IsUsable(f) {
      return None;
    }
    hide Passes;
    var left: seq<Shape> := [];
    for i := 0 to |shapes|
      invariant left == AdjustedBy(shapes[..i], f)
    {
      Sequences.FilterNext(shapes, i, (s: Shape) => Passes(s, f));
      if Passes(shapes[i], f) {
        left := left + [shapes[i]];
      }
    }
    assert shapes[..|shapes|] == shapes;
    adjusted := Some(left);
  }
}
