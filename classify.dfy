/** The ordinal classes of RFV: each metric is cut at its three quartile
    thresholds into four classes, A (best) to D (worst), and the three classes
    of a customer are written side by side as a three-letter segment code. */
module Classify {
  import opened Wrappers
  import opened Quantile

  datatype Grade = A | B | C | D {

    /** The class as the single letter that the segment code is made of. */
    function Letter(): char {
      match this
      case A => 'A'
      case B => 'B'
      case C => 'C'
      case D => 'D'
    }

    /** Position in the order A < B < C < D; a smaller rank is a better class. */
    function Rank(): nat {
      match this
      case A => 0
      case B => 1
      case C => 2
      case D => 3
    }

    /** The class at the same distance from the other end of the scale. */
    function Mirror(): Grade {
      match this
      case A => D
      case B => C
      case C => B
      case D => A
    }
  }

  /** Class of a recency: fewer days since the last purchase is better, and a
      value equal to a threshold goes to the better side of it. */
  function RecencyClass(x: real, t: Thresholds): (g: Grade) {
    if x <= t.q25 then A
    else if x <= t.q50 then B
    else if x <= t.q75 then C
    else D
  }

  /** Class of a frequency or a value: more is better, so the scale is
      reversed; a value equal to a threshold goes to the lower class. */
  function FreqValClass(x: real, t: Thresholds): (g: Grade) {
    if x <= t.q25 then D
    else if x <= t.q50 then C
    else if x <= t.q75 then B
    else A
  }

  /** With ordered thresholds the four recency classes are the four
      contiguous intervals (-inf, q25], (q25, q50], (q50, q75], (q75, +inf). */
  lemma RecencyClassIntervals(x: real, t: Thresholds)
    requires Ordered(t)
    ensures RecencyClass(x, t) == A <==> x <= t.q25
    ensures RecencyClass(x, t) == B <==> t.q25 < x <= t.q50
    ensures RecencyClass(x, t) == C <==> t.q50 < x <= t.q75
    ensures RecencyClass(x, t) == D <==> t.q75 < x
  {
  }

  /** The same four intervals, read in reverse, for frequency and value. */
  lemma FreqValClassIntervals(x: real, t: Thresholds)
    requires Ordered(t)
    ensures FreqValClass(x, t) == D <==> x <= t.q25
    ensures FreqValClass(x, t) == C <==> t.q25 < x <= t.q50
    ensures FreqValClass(x, t) == B <==> t.q50 < x <= t.q75
    ensures FreqValClass(x, t) == A <==> t.q75 < x
  {
  }

  /** Both classifiers apply one step function; they differ only in the
      direction of the scale. */
  lemma FreqValIsMirroredRecency(x: real, t: Thresholds)
    ensures FreqValClass(x, t) == RecencyClass(x, t).Mirror()
  {
  }

  /** More days since the last purchase never gives a better class. This holds
      for any thresholds, ordered or not. */
  lemma RecencyClassMonotone(x: real, y: real, t: Thresholds)
    requires x <= y
    ensures RecencyClass(x, t).Rank() <= RecencyClass(y, t).Rank()
  {
  }

  /** More orders or more money never gives a worse class. */
  lemma FreqValClassMonotone(x: real, y: real, t: Thresholds)
    requires x <= y
    ensures FreqValClass(y, t).Rank() <= FreqValClass(x, t).Rank()
  {
    RecencyClassMonotone(x, y, t);
    FreqValIsMirroredRecency(x, t);
    FreqValIsMirroredRecency(y, t);
  }

  /** The segment code: the R, F and V letters in that order. */
  function Code(r: Grade, f: Grade, v: Grade): (code: string) {
    [r.Letter(), f.Letter(), v.Letter()]
  }

  /** Reads one class letter back. */
  function GradeOf(ch: char): (g: Option<Grade>)
    ensures g.Some? ==> g.value.Letter() == ch
    ensures g.None? ==> ch !in {'A', 'B', 'C', 'D'}
  {
    match ch
    case 'A' => Some(A)
    case 'B' => Some(B)
    case 'C' => Some(C)
    case 'D' => Some(D)
    case _ => None
  }

  /** Splits a segment code back into its three classes. */
  function Decode(code: string): (triple: Option<(Grade, Grade, Grade)>) {
    if |code| != 3 then None
    else
      match (GradeOf(code[0]), GradeOf(code[1]), GradeOf(code[2]))
      case (Some(r), Some(f), Some(v)) => Some((r, f, v))
      case _ => None
  }

  /** Every code is three letters long and decodes to the classes it was
      built from, so distinct class triples give distinct codes. */
  lemma DecodeCode(r: Grade, f: Grade, v: Grade)
    ensures |Code(r, f, v)| == 3
    ensures Decode(Code(r, f, v)) == Some((r, f, v))
  {
  }

  /** Conversely, whatever decodes is the code of the triple it decodes to. */
  lemma CodeDecode(code: string)
    requires Decode(code).Some?
    ensures Code(Decode(code).value.0, Decode(code).value.1, Decode(code).value.2) == code
  {
    var g := Decode(code).value;
    assert GradeOf(code[0]) == Some(g.0) && GradeOf(code[1]) == Some(g.1) && GradeOf(code[2]) == Some(g.2);
  }

  lemma CodeInjective(r: Grade, f: Grade, v: Grade, r': Grade, f': Grade, v': Grade)
    requires Code(r, f, v) == Code(r', f', v')
    ensures r == r' && f == f' && v == v'
  {
    DecodeCode(r, f, v);
    DecodeCode(r', f', v');
  }
}
