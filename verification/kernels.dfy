/**
 * The kernel registry: the fixed table of named 3x3 kernels, the effect
 * list the menu is built from, and the weight (normalisation divisor)
 * computed for a kernel.  The two copies of the pipeline differ in three
 * ways, captured by `Config`.
 */
module Kernels {
  import opened Common

  /**
   * The differences between the two copies of the pipeline:
   * whether the Prewitt kernel is registered, whether `setFramebuffer`
   * also sets the viewport, and whether `drawEffects` starts with a clear.
   */
  datatype Config = Config(withPrewitt: bool, setsViewport: bool, clearsFirst: bool)

  /** script/semestralka.js */
  const Semestralka := Config(true, true, true)

  /** script/WebGLFilters.js */
  const WebGLFilters := Config(false, false, false)

  // The coefficient tables, row-major.
  const Normal: seq<int> := [0, 0, 0, 0, 1, 0, 0, 0, 0]
  const Unsharpen: seq<int> := [-1, -1, -1, -1, 9, -1, -1, -1, -1]
  const Sharpness: seq<int> := [0, -1, 0, -1, 5, -1, 0, -1, 0]
  const EdgeDetect: seq<int> := [-1, -1, -1, -1, 8, -1, -1, -1, -1]
  const SobelHorizontal: seq<int> := [1, 2, 1, 0, 0, 0, -1, -2, -1]
  const PrevitHorizontal: seq<int> := [1, 1, 1, 0, 0, 0, -1, -1, -1]
  const Emboss: seq<int> := [-2, -1, 0, -1, 1, 1, 0, 1, 2]

  /** The `kernels` object built by `main`. */
  function KernelTable(c: Config): (t: map<string, seq<int>>)
    ensures forall name :: name in t ==> |t[name]| == 9
    ensures "normal" in t && t["normal"] == Normal
    ensures "previtHorizontal" in t <==> c.withPrewitt
  {
    var common := map[
      "normal" := Normal,
      "unsharpen" := Unsharpen,
      "sharpness" := Sharpness,
      "edgeDetect" := EdgeDetect,
      "sobelHorizontal" := SobelHorizontal,
      "emboss" := Emboss];
    if c.withPrewitt then common["previtHorizontal" := PrevitHorizontal] else common
  }

  /** The `effects` list, in menu order. */
  function EffectNames(c: Config): seq<string>
  {
    if c.withPrewitt then
      ["sharpness", "unsharpen", "edgeDetect", "sobelHorizontal", "previtHorizontal", "emboss"]
    else
      ["sharpness", "unsharpen", "edgeDetect", "sobelHorizontal", "emboss"]
  }

  /**
   * `Array.prototype.reduce` with `(prev, curr) => prev + curr` and no
   * initial value: the accumulator starts at the first element and the
   * rest are added left to right.
   */
  function Reduce(acc: int, rest: seq<int>): (r: int)
    ensures r == acc + Sum(rest)
    decreases |rest|
  {
    if |rest| == 0 then acc else Reduce(acc + rest[0], rest[1..])
  }

  /**
   * `computeKernelWeight`.  `reduce` without an initial value throws on an
   * empty array, so a kernel must have at least one coefficient.
   */
  function ComputeKernelWeight(k: seq<int>): (w: int)
    requires |k| > 0
    ensures w > 0
    ensures Sum(k) > 0 ==> w == Sum(k)
    ensures Sum(k) <= 0 ==> w == 1
  {
    var weight := Reduce(k[0], k[1..]);
    if weight <= 0 then 1 else weight
  }

  /** The coefficient sum of a nine-element kernel, written out. */
  lemma {:induction false} SumOfNine(k: seq<int>)
    requires |k| == 9
    ensures Sum(k) == k[0] + k[1] + k[2] + k[3] + k[4] + k[5] + k[6] + k[7] + k[8]
  {
    var t := k[1..];
    assert Sum(k) == k[0] + Sum(t);
    assert Sum(t) == t[0] + Sum(t[1..]);
    assert Sum(t[1..]) == t[1] + Sum(t[2..]) by { assert t[1..][1..] == t[2..]; }
    assert Sum(t[2..]) == t[2] + Sum(t[3..]) by { assert t[2..][1..] == t[3..]; }
    assert Sum(t[3..]) == t[3] + Sum(t[4..]) by { assert t[3..][1..] == t[4..]; }
    assert Sum(t[4..]) == t[4] + Sum(t[5..]) by { assert t[4..][1..] == t[5..]; }
    assert Sum(t[5..]) == t[5] + Sum(t[6..]) by { assert t[5..][1..] == t[6..]; }
    assert Sum(t[6..]) == t[6] + Sum(t[7..]) by { assert t[6..][1..] == t[7..]; }
    assert Sum(t[7..]) == t[7] + Sum(t[8..]) by { assert t[7..][1..] == t[8..]; }
    assert t[8..] == [];
  }

  /** The coefficient sums of the built-in kernels. */
  lemma BuiltinKernelSums()
    ensures Sum(Normal) == 1 && Sum(Unsharpen) == 1 && Sum(Sharpness) == 1 && Sum(Emboss) == 1
    ensures Sum(EdgeDetect) == 0 && Sum(SobelHorizontal) == 0 && Sum(PrevitHorizontal) == 0
  {
    SumOfNine(Normal);
    SumOfNine(Unsharpen);
    SumOfNine(Sharpness);
    SumOfNine(Emboss);
    SumOfNine(EdgeDetect);
    SumOfNine(SobelHorizontal);
    SumOfNine(PrevitHorizontal);
  }

  /** Every registered kernel has nine coefficients and weight 1. */
  lemma BuiltinKernelWeights(c: Config)
    ensures forall name :: name in KernelTable(c) ==>
      |KernelTable(c)[name]| == 9 && ComputeKernelWeight(KernelTable(c)[name]) == 1
  {
    BuiltinKernelSums();
    var t := KernelTable(c);
    forall name | name in t
      ensures ComputeKernelWeight(t[name]) == 1
    {
      TableValue(c, name);
    }
  }

  /** Each table entry is one of the built-in coefficient lists. */
  lemma TableValue(c: Config, name: string)
    requires name in KernelTable(c)
    ensures var k := KernelTable(c)[name];
      k == Normal || k == Unsharpen || k == Sharpness || k == EdgeDetect
      || k == SobelHorizontal || k == PrevitHorizontal || k == Emboss
  {
  }

  /** The names the table registers. */
  lemma KernelNames(c: Config)
    ensures KernelTable(c).Keys ==
      {"normal", "unsharpen", "sharpness", "edgeDetect", "sobelHorizontal", "emboss"}
      + (if c.withPrewitt then {"previtHorizontal"} else {})
  {
  }

  /** The table holds six kernels, or seven with the Prewitt kernel. */
  lemma KernelTableSize(c: Config)
    ensures |KernelTable(c)| == (if c.withPrewitt then 7 else 6)
  {
    KernelNames(c);
    var six := {"normal", "unsharpen", "sharpness", "edgeDetect", "sobelHorizontal", "emboss"};
    assert |six| == 6;
    assert "previtHorizontal" !in six;
  }

  /**
   * The menu offers exactly the registered kernels other than the identity,
   * each once: every effect names a kernel, and every kernel but `normal`
   * is an effect.
   */
  lemma EffectsAreKernels(c: Config)
    ensures forall i :: 0 <= i < |EffectNames(c)| ==>
      EffectNames(c)[i] in KernelTable(c) && EffectNames(c)[i] != "normal"
    ensures forall name :: name in KernelTable(c) && name != "normal" ==>
      name in EffectNames(c)
    ensures forall i, j :: 0 <= i < j < |EffectNames(c)| ==>
      EffectNames(c)[i] != EffectNames(c)[j]
    ensures |EffectNames(c)| == |KernelTable(c)| - 1
  {
    KernelTableSize(c);
    EffectsRegistered(c);
    TableNamesOffered(c);
    EffectsDistinct(c);
  }

  lemma EffectsRegistered(c: Config)
    ensures forall i :: 0 <= i < |EffectNames(c)| ==>
      EffectNames(c)[i] in KernelTable(c) && EffectNames(c)[i] != "normal"
  {
  }

  lemma TableNamesOffered(c: Config)
    ensures forall name :: name in KernelTable(c) && name != "normal" ==>
      name in EffectNames(c)
  {
    KernelNames(c);
  }

  lemma EffectsDistinct(c: Config)
    ensures forall i, j :: 0 <= i < j < |EffectNames(c)| ==>
      EffectNames(c)[i] != EffectNames(c)[j]
  {
  }
}
