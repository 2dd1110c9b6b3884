/**
  The in-memory palette store (src/services/paletteService.ts): an ordered
  list of base colours and a map from colour id to the bundle of variations
  generated for it.
 */
module Palette {
  import opened Wrappers
  import opened ColorUtils

  /** A base colour; `name` is optional. */
  datatype ColorData = ColorData(id: string, hex: string, name: Option<string>)

  /** The variations generated for one base colour. */
  datatype ColorVariations = ColorVariations(
    tints: seq<string>,
    shades: seq<string>,
    analogous: seq<string>,
    complementary: seq<string>,
    triadic: seq<string>,
    square: seq<string>,
    tetradic: seq<string>,
    splitComplementary: seq<string>)

  /** The colour functions the service relies on without their definitions
      in view: hslToHex, and the square, tetradic and split-complementary
      generators it imports. */
  datatype Generators = Generators(
    hslToHex: HslToHex,
    square: string -> seq<string>,
    tetradic: string -> seq<string>,
    splitComplementary: string -> seq<string>)

  /** The bundle generateVariations stores for a colour of hex `hex`. */
  function VariationsOf(gen: Generators, hex: string): (v: ColorVariations)
    ensures |v.tints| == 5 && |v.shades| == 5 && |v.analogous| == 5
    ensures |v.complementary| == 2 && |v.triadic| == 3
    ensures v.complementary[0] == hex
  {
    var c := HexToHsl(hex);
    ColorVariations(
      Tints(gen.hslToHex, c, 5),
      Shades(gen.hslToHex, c, 5),
      Analogous(gen.hslToHex, c),
      GenerateComplementary(gen.hslToHex, hex),
      Triadic(gen.hslToHex, c),
      gen.square(hex),
      gen.tetradic(hex),
      gen.splitComplementary(hex))
  }

  /** What a stored bundle says about its base colour `c = hexToHsl(hex)`:
      tints run from the base lightness to 100 and shades from it to 0, all
      at the base hue and saturation; every harmony hue lies in [0, 360). */
  lemma {:induction false} VariationBundle(gen: Generators, hex: string)
    ensures var c := HexToHsl(hex);
            var v := VariationsOf(gen, hex);
            && v.tints[0] == gen.hslToHex(c.h as real, c.s as real, c.l as real)
            && v.tints[4] == gen.hslToHex(c.h as real, c.s as real, 100.0)
            && v.shades[0] == gen.hslToHex(c.h as real, c.s as real, c.l as real)
            && v.shades[4] == gen.hslToHex(c.h as real, c.s as real, 0.0)
            && (forall i :: -2 <= i <= 2 ==> 0 <= AnalogousHue(c.h, i) < 360)
            && 0 <= ComplementaryHue(c.h) < 360
            && (forall i :: 0 <= i <= 2 ==> 0 <= TriadicHue(c.h, i) < 360)
  {
    var c := HexToHsl(hex);
    HexToHslBounds(hex);
    TintSteps(gen.hslToHex, c, 5);
    ShadeSteps(gen.hslToHex, c, 5);
    HarmonyHues(c);
  }

  // ---------------------------------------------------------------------
  // The list operations the service uses
  // ---------------------------------------------------------------------

  /** The ids present in a list of colours. */
  function Ids(cs: seq<ColorData>): set<string> {
    set c | c in cs :: c.id
  }

  /** `cs.filter(color => color.id !== id)`. */
  function WithoutId(cs: seq<ColorData>, id: string): (r: seq<ColorData>)
    ensures forall c :: c in r <==> c in cs && c.id != id
    ensures |r| <= |cs|
  {
    if cs == [] then []
    else (if cs[0].id != id then [cs[0]] else []) + WithoutId(cs[1..], id)
  }

  /** `cs.findIndex(color => color.id === id)`: the first position holding
      that id, or -1 when there is none. */
  function FindIndex(cs: seq<ColorData>, id: string): (k: int)
    ensures -1 <= k < |cs|
    ensures k >= 0 ==> cs[k].id == id && forall j :: 0 <= j < k ==> cs[j].id != id
    ensures k == -1 <==> id !in Ids(cs)
  {
    if cs == [] then -1
    else if cs[0].id == id then 0
    else
      var j := FindIndex(cs[1..], id);
      assert Ids(cs) == {cs[0].id} + Ids(cs[1..]) by {
        assert forall c :: c in cs <==> c == cs[0] || c in cs[1..];
      }
      if j == -1 then -1 else j + 1
  }

  /** Filtering drops exactly the id from the id set. */
  lemma WithoutIdIds(cs: seq<ColorData>, id: string)
    ensures Ids(WithoutId(cs, id)) == Ids(cs) - {id}
  {
  }

  /** Filtering by an absent id gives the list back unchanged. */
  lemma {:induction false} WithoutIdAbsent(cs: seq<ColorData>, id: string)
    requires id !in Ids(cs)
    ensures WithoutId(cs, id) == cs
  {
    if cs != [] {
      assert cs[0] in cs;
      assert Ids(cs[1..]) <= Ids(cs) by {
        forall c | c in cs[1..] ensures c in cs { }
      }
      WithoutIdAbsent(cs[1..], id);
      assert [cs[0]] + cs[1..] == cs;
    }
  }

  /** Filtering keeps the survivors in their original order: it distributes
      over concatenation. */
  lemma {:induction false} WithoutIdAppend(a: seq<ColorData>, b: seq<ColorData>, id: string)
    ensures WithoutId(a + b, id) == WithoutId(a, id) + WithoutId(b, id)
  {
    if a != [] {
      assert (a + b)[1..] == a[1..] + b;
      WithoutIdAppend(a[1..], b, id);
    } else {
      assert a + b == b;
    }
  }

  /** Replacing an entry by one of the same id keeps the id set. */
  lemma ReplaceKeepsIds(cs: seq<ColorData>, k: int, c: ColorData)
    requires 0 <= k < |cs| && cs[k].id == c.id
    ensures Ids(cs[k := c]) == Ids(cs)
  {
    var cs' := cs[k := c];
    forall x | x in Ids(cs) ensures x in Ids(cs') {
      var i :| 0 <= i < |cs| && cs[i].id == x;
      assert cs'[i].id == x;
      assert cs'[i] in cs';
    }
    forall x | x in Ids(cs') ensures x in Ids(cs) {
      var i :| 0 <= i < |cs'| && cs'[i].id == x;
      assert cs[i].id == x;
      assert cs[i] in cs;
    }
  }

  // ---------------------------------------------------------------------
  // The backfill step of importFromJson
  // ---------------------------------------------------------------------

  /** The `forEach` of importFromJson: in list order, generate the bundle of
      each colour whose id has none yet. */
  function Backfill(gen: Generators, m: map<string, ColorVariations>, cs: seq<ColorData>): map<string, ColorVariations>
    decreases |cs|
  {
    if cs == [] then m
    else Backfill(gen, if cs[0].id in m then m else m[cs[0].id := VariationsOf(gen, cs[0].hex)], cs[1..])
  }

  /** The ids of a non-empty list: the head's id and the tail's ids. */
  lemma IdsCons(cs: seq<ColorData>)
    requires cs != []
    ensures Ids(cs) == {cs[0].id} + Ids(cs[1..])
  {
    assert forall c :: c in cs <==> c == cs[0] || c in cs[1..];
  }

  /** Backfilling adds exactly the ids of the list to the keys. */
  lemma {:induction false} BackfillKeys(gen: Generators, m: map<string, ColorVariations>, cs: seq<ColorData>)
    ensures Backfill(gen, m, cs).Keys == m.Keys + Ids(cs)
    decreases |cs|
  {
    if cs != [] {
      var m' := if cs[0].id in m then m else m[cs[0].id := VariationsOf(gen, cs[0].hex)];
      BackfillKeys(gen, m', cs[1..]);
      IdsCons(cs);
    }
  }

  /** Backfilling never overwrites a bundle that is already there. */
  lemma {:induction false} BackfillKeeps(gen: Generators, m: map<string, ColorVariations>, cs: seq<ColorData>, k: string)
    requires k in m
    ensures k in Backfill(gen, m, cs) && Backfill(gen, m, cs)[k] == m[k]
    decreases |cs|
  {
    if cs != [] {
      var m' := if cs[0].id in m then m else m[cs[0].id := VariationsOf(gen, cs[0].hex)];
      BackfillKeeps(gen, m', cs[1..], k);
    }
  }

  /** A missing id gets the bundle of the first colour carrying it. */
  lemma {:induction false} BackfillMissing(gen: Generators, m: map<string, ColorVariations>, cs: seq<ColorData>, k: string)
    requires k in Ids(cs) && k !in m
    ensures 0 <= FindIndex(cs, k) < |cs|
    ensures k in Backfill(gen, m, cs)
    ensures Backfill(gen, m, cs)[k] == VariationsOf(gen, cs[FindIndex(cs, k)].hex)
    decreases |cs|
  {
    IdsCons(cs);
    var m' := if cs[0].id in m then m else m[cs[0].id := VariationsOf(gen, cs[0].hex)];
    if cs[0].id == k {
      assert FindIndex(cs, k) == 0;
      BackfillKeeps(gen, m', cs[1..], k);
    } else {
      assert k in Ids(cs[1..]) && k !in m';
      BackfillMissing(gen, m', cs[1..], k);
      var j := FindIndex(cs[1..], k);
      assert FindIndex(cs, k) == j + 1;
      assert cs[j + 1] == cs[1..][j];
    }
  }

  /** Backfilling adds exactly the missing ids, leaves every given bundle
      untouched, and generates a missing id's bundle from the FIRST colour
      carrying that id. */
  lemma BackfillSpec(gen: Generators, m: map<string, ColorVariations>, cs: seq<ColorData>)
    ensures Backfill(gen, m, cs).Keys == m.Keys + Ids(cs)
    ensures forall k :: k in m ==> Backfill(gen, m, cs)[k] == m[k]
    ensures forall k :: k in Ids(cs) && k !in m ==>
              Backfill(gen, m, cs)[k] == VariationsOf(gen, cs[FindIndex(cs, k)].hex)
  {
    BackfillKeys(gen, m, cs);
    forall k | k in m ensures Backfill(gen, m, cs)[k] == m[k] {
      BackfillKeeps(gen, m, cs, k);
    }
    forall k | k in Ids(cs) && k !in m
      ensures Backfill(gen, m, cs)[k] == VariationsOf(gen, cs[FindIndex(cs, k)].hex)
    {
      BackfillMissing(gen, m, cs, k);
    }
  }

  // ---------------------------------------------------------------------
  // importFromJson's input
  // ---------------------------------------------------------------------

  /** The `palette` member of an imported document; a missing or falsy
      member is `None`. */
  datatype PaletteDoc = PaletteDoc(
    baseColors: Option<seq<ColorData>>,
    variations: Option<map<string, ColorVariations>>)

  /** What `JSON.parse` made of the imported text: a syntax error, the value
      `null`, or any other value, of which only `palette` is read. */
  datatype Parsed = Unparseable | JsonNull | JsonValue(palette: Option<PaletteDoc>)

  /** The error importFromJson throws. */
  const InvalidJson: string := "Invalid JSON format"

  /** True when importFromJson takes the document over: it has `palette` and
      `palette.baseColors`. */
  predicate Imports(parsed: Parsed) {
    parsed.JsonValue? && parsed.palette.Some? && parsed.palette.value.baseColors.Some?
  }

  /** The bundles an imported document brings, `{}` when it has none. */
  function ImportedVariations(doc: PaletteDoc): map<string, ColorVariations> {
    if doc.variations.Some? then doc.variations.value else map[]
  }

  // ---------------------------------------------------------------------
  // PaletteService
  // ---------------------------------------------------------------------

  class PaletteService {
    const gen: Generators
    var baseColors: seq<ColorData>
    var variations: map<string, ColorVariations>

    /** The key set of `variations` is the set of ids in `baseColors`. */
    ghost predicate Valid()
      reads this
    {
      variations.Keys == Ids(baseColors)
    }

    /** Every base colour has its bundle. */
    ghost predicate Covered()
      reads this
    {
      Ids(baseColors) <= variations.Keys
    }

    /** A new service holds no colours and no bundles. */
    constructor (gen: Generators)
      ensures this.gen == gen
      ensures baseColors == [] && variations == map[]
      ensures Valid()
    {
      this.gen := gen;
      baseColors := [];
      variations := map[];
    }

    /** addColor: append, then store the colour's bundle under its id; no
        check for a repeated id or a similar colour. */
    method AddColor(color: ColorData)
      modifies this
      ensures baseColors == old(baseColors) + [color]
      ensures variations == old(variations)[color.id := VariationsOf(gen, color.hex)]
      ensures old(Valid()) ==> Valid()
      ensures old(Covered()) ==> Covered()
    {
      baseColors := baseColors + [color];
      GenerateVariations(color);
      assert Ids(baseColors) == Ids(old(baseColors)) + {color.id} by {
        assert forall c :: c in baseColors <==> c in old(baseColors) || c == color;
      }
    }

    /** removeColor: drop every colour with that id and its bundle. */
    method RemoveColor(id: string)
      modifies this
      ensures baseColors == WithoutId(old(baseColors), id)
      ensures variations == old(variations) - {id}
      ensures id !in Ids(old(baseColors)) ==> baseColors == old(baseColors)
      ensures id !in old(variations) ==> variations == old(variations)
      ensures old(Valid()) ==> Valid()
      ensures old(Covered()) ==> Covered()
    {
      if id !in Ids(baseColors) {
        WithoutIdAbsent(baseColors, id);
      }
      WithoutIdIds(baseColors, id);
      baseColors := WithoutId(baseColors, id);
      variations := variations - {id};
    }

    /** updateColor: the first colour with that id becomes `{id, hex, name}`
        at the same position and its bundle is regenerated; with no such
        colour nothing changes. */
    method UpdateColor(id: string, hex: string, name: Option<string>)
      modifies this
      ensures var k := FindIndex(old(baseColors), id);
              if k == -1 then
                baseColors == old(baseColors) && variations == old(variations)
              else
                && baseColors == old(baseColors)[k := ColorData(id, hex, name)]
                && variations == old(variations)[id := VariationsOf(gen, hex)]
      ensures old(Valid()) ==> Valid()
      ensures old(Covered()) ==> Covered()
    {
      var colorIndex := FindIndex(baseColors, id);
      if colorIndex != -1 {
        ReplaceKeepsIds(baseColors, colorIndex, ColorData(id, hex, name));
        baseColors := baseColors[colorIndex := ColorData(id, hex, name)];
        GenerateVariations(ColorData(id, hex, name));
      }
    }

    /** generateVariations: store the colour's freshly generated bundle. */
    method GenerateVariations(color: ColorData)
      modifies this
      ensures baseColors == old(baseColors)
      ensures variations == old(variations)[color.id := VariationsOf(gen, color.hex)]
    {
      var tints := GenerateTints(gen.hslToHex, color.hex, 5);
      var shades := GenerateShades(gen.hslToHex, color.hex, 5);
      var analogous := GenerateAnalogous(gen.hslToHex, color.hex);
      var complementary := GenerateComplementary(gen.hslToHex, color.hex);
      var triadic := GenerateTriadic(gen.hslToHex, color.hex);
      variations := variations[color.id := ColorVariations(
        tints, shades, analogous, complementary, triadic,
        gen.square(color.hex), gen.tetradic(color.hex), gen.splitComplementary(color.hex))];
    }

    /** getColors. */
    method GetColors() returns (colors: seq<ColorData>)
      ensures colors == baseColors
    {
      colors := baseColors;
    }

    /** getVariations: the stored bundle, or `undefined` for an unknown id. */
    method GetVariations(colorId: string) returns (v: Option<ColorVariations>)
      ensures v.Some? <==> colorId in variations
      ensures v.Some? ==> v.value == variations[colorId]
    {
      if colorId in variations {
        v := Some(variations[colorId]);
      } else {
        v := None;
      }
    }

    /** importFromJson, after `JSON.parse`. A document with `palette` and
        `palette.baseColors` replaces the list and the map and backfills the
        missing bundles; any other value is ignored; a syntax error, or
        `null` (whose `.palette` throws), is reported as "Invalid JSON format"
        with nothing changed. */
    method ImportFromJson(parsed: Parsed) returns (error: Option<string>)
      modifies this
      ensures parsed.Unparseable? || parsed.JsonNull? ==>
                error == Some(InvalidJson) && baseColors == old(baseColors) && variations == old(variations)
      ensures parsed.JsonValue? && !Imports(parsed) ==>
                error == None && baseColors == old(baseColors) && variations == old(variations)
      ensures Imports(parsed) ==>
                var doc := parsed.palette.value;
                && error == None
                && baseColors == doc.baseColors.value
                && variations == Backfill(gen, ImportedVariations(doc), doc.baseColors.value)
                && Covered()
                && (Valid() <==> ImportedVariations(doc).Keys <= Ids(doc.baseColors.value))
    {
      if parsed.Unparseable? || parsed.JsonNull? {
        return Some(InvalidJson);
      }
      error := None;
      if parsed.palette.Some? && parsed.palette.value.baseColors.Some? {
        var doc := parsed.palette.value;
        var cs := doc.baseColors.value;
        baseColors := cs;
        variations := ImportedVariations(doc);
        var i := 0;
        while i < |baseColors|
          invariant 0 <= i <= |cs| && baseColors == cs
          invariant Backfill(gen, variations, cs[i..]) == Backfill(gen, ImportedVariations(doc), cs)
        {
          var color := baseColors[i];
          assert cs[i..][1..] == cs[i + 1..];
          if color.id !in variations {
            GenerateVariations(color);
          }
          i := i + 1;
        }
        assert cs[|cs|..] == [];
        BackfillSpec(gen, ImportedVariations(doc), cs);
      }
    }
  }
}
