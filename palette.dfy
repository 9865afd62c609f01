/** Palette choice from parameter a and the round-robin fill colours. */
module Palette {
  import opened Faces
  import opened DepthSort

  /** One fill of a face outline with a colour, in painting order. */
  datatype Stroke = Stroke(face: Face, fill: string)

  /** The colour palettes, in table order. */
  const Palettes: seq<seq<string>> := [
    ["#619b3d", "#3e9eaa", "#8a3eba", "#c55243"],
    ["#c6a36c", "#75cd7f", "#7e9fd4", "#da88d1"],
    ["#42b87a", "#42bda1", "#44b7c0", "#4794c2", "#4972c5"],
    ["#35885c", "#373997", "#a63772", "#b6b238"],
    ["#cd7376", "#d08e76", "#d2ab79", "#d4c87c", "#c8d67f"],
    ["#3e9e55", "#3f5cad", "#bd3f9f", "#c6a445"]
  ]

  /** The single fill used when colour is off. */
  const Monochrome: seq<string> := ["white"]

  /** The palette table index for parameter a: floor(a / 11 * 6). It lies
      in the table exactly when 0 <= a < 11. */
  function PaletteIndex(parameterA: real): (r: int)
    ensures 0 <= r < |Palettes| <==> 0.0 <= parameterA < 11.0
  {
    var x := (parameterA / 11.0) * (|Palettes| as real);
    assert x.Floor as real <= x < x.Floor as real + 1.0;
    assert x == parameterA * 6.0 / 11.0;
    x.Floor
  }

  /** The palette of a paint pass; None when the index misses the table. */
  function PaletteFor(color: bool, parameterA: real): (r: Option<seq<string>>)
    ensures r.Some? ==> |r.value| > 0
    ensures r.None? <==> color && !(0 <= PaletteIndex(parameterA) < |Palettes|)
    ensures r.None? <==> color && !(0.0 <= parameterA < 11.0)
  {
    if !color then Some(Monochrome)
    else
      var index := PaletteIndex(parameterA);
      if 0 <= index < |Palettes| then PalettesAreProper(); Some(Palettes[index]) else None
  }

  datatype Option<T> = None | Some(value: T)

  /** Over the slider's values 0 .. 10 the palettes chosen are
      0, 0, 1, 1, 2, 2, 3, 3, 4, 4, 5. */
  lemma SliderPalettes()
    ensures forall n :: 0 <= n <= 10 ==> PaletteIndex(n as real) == [0, 0, 1, 1, 2, 2, 3, 3, 4, 4, 5][n]
  {
    forall n | 0 <= n <= 10
      ensures PaletteIndex(n as real) == [0, 0, 1, 1, 2, 2, 3, 3, 4, 4, 5][n]
    {
      var x := (n as real / 11.0) * 6.0;
      var expected := [0, 0, 1, 1, 2, 2, 3, 3, 4, 4, 5][n];
      assert expected as real <= x < expected as real + 1.0;
    }
  }

  /** Every palette is non-empty and lists different colours. */
  lemma PalettesAreProper()
    ensures forall p :: 0 <= p < |Palettes| ==> |Palettes[p]| >= 4
    ensures forall p, a, b :: 0 <= p < |Palettes| && 0 <= a < b < |Palettes[p]| ==> Palettes[p][a] != Palettes[p][b]
  {
  }

  /** Face k is filled with palette[k mod |palette|]. */
  function Colored(faces: seq<Face>, palette: seq<string>): (strokes: seq<Stroke>)
    requires |palette| > 0
    ensures |strokes| == |faces|
  {
    seq(|faces|, k requires 0 <= k < |faces| => Stroke(faces[k], palette[k % |palette|]))
  }

  /** The fill loop: paints the faces in order, advancing the palette index
      round-robin after each. */
  method AssignColors(faces: seq<Face>, palette: seq<string>) returns (strokes: seq<Stroke>)
    requires |palette| > 0
    ensures strokes == Colored(faces, palette)
  {
    strokes := [];
    var paletteIndex := 0;
    var k := 0;
    while k < |faces|
      invariant 0 <= k <= |faces|
      invariant paletteIndex == k % |palette|
      invariant strokes == Colored(faces[..k], palette)
    {
      strokes := strokes + [Stroke(faces[k], palette[paletteIndex])];
      paletteIndex := (paletteIndex + 1) % |palette|;
      NextModulo(k, |palette|);
      k := k + 1;
      assert faces[..k][..k - 1] == faces[..k - 1];
    }
    assert faces[..|faces|] == faces;
  }

  /** Advancing a residue by one and reducing again is the residue of the
      successor. */
  lemma NextModulo(k: nat, n: nat)
    requires n > 0
    ensures (k % n + 1) % n == (k + 1) % n
  {
    var r := k % n;
    var q := k / n;
    assert k == q * n + r;
    if r + 1 < n {
      ModUnique(k + 1, n, q, r + 1);
      ModUnique(r + 1, n, 0, r + 1);
    } else {
      ModUnique(k + 1, n, q + 1, 0);
      ModUnique(r + 1, n, 1, 0);
    }
  }

  /** A remainder is determined by any quotient-remainder decomposition. */
  lemma ModUnique(k: int, n: int, q: int, r: int)
    requires n > 0 && 0 <= r < n && k == q * n + r
    ensures k % n == r
  {
    var q' := k / n;
    var r' := k % n;
    assert k == q' * n + r';
    assert (q - q') * n == r' - r;
    if q > q' {
      MulAtLeast(q - q', n);
    } else if q < q' {
      MulAtLeast(q' - q, n);
    }
  }

  lemma MulAtLeast(d: int, n: int)
    requires d >= 1 && n > 0
    ensures d * n >= n
  {
    if d > 1 {
      MulAtLeast(d - 1, n);
      assert d * n == (d - 1) * n + n;
    }
  }

  /** With a palette of distinct colours and at least two of them,
      neighbouring faces never share a fill; the fill repeats every
      |palette| faces. */
  lemma ColoursAlternate(faces: seq<Face>, palette: seq<string>, k: nat)
    requires |palette| >= 2
    requires forall a, b :: 0 <= a < b < |palette| ==> palette[a] != palette[b]
    requires k + 1 < |faces|
    ensures Colored(faces, palette)[k].fill != Colored(faces, palette)[k + 1].fill
    ensures k + |palette| < |faces| ==> Colored(faces, palette)[k].fill == Colored(faces, palette)[k + |palette|].fill
  {
    NextModulo(k, |palette|);
    var n := |palette|;
    assert k == (k / n) * n + k % n;
    ModUnique(k + n, n, k / n + 1, k % n);
  }
}
