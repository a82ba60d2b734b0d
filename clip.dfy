// clipRasterNonzero.py, its path and command-text logic: the shapefile a clip raster is
// turned into, the layer name beside it, the gdal_polygonize.py command that makes it,
// the attribute filter, and the gdalwarp command that clips the source raster. The
// commands are only built here; running them, and the raster I/O before them, are not
// modelled.

module ClipRaster {
  import opened Text
  import opened Paths

  /** A command template as str.format sees it: literal text and positional fields. */
  datatype Piece = Lit(text: string) | Field(index: nat)

  /** Every field names one of the `n` arguments. */
  predicate TemplateFor(t: seq<Piece>, n: nat) {
    |t| == 0 || (PieceFor(t[0], n) && TemplateFor(t[1..], n))
  }

  predicate PieceFor(p: Piece, n: nat) {
    p.Field? ==> p.index < n
  }

  /** The template text reads back as these pieces: the literal text holds no braces
      and every field is written with one digit. */
  predicate Plain(t: seq<Piece>) {
    |t| == 0 || (PlainPiece(t[0]) && Plain(t[1..]))
  }

  predicate PlainPiece(p: Piece) {
    if p.Lit? then BraceFree(p.text) else p.index < 10
  }

  /** One piece filled in. */
  function PieceText(p: Piece, args: seq<string>): string
    requires PieceFor(p, |args|)
  {
    if p.Lit? then p.text else args[p.index]
  }

  /** The template as it is written in the program text. */
  function TemplateText(t: seq<Piece>): string {
    if |t| == 0 then ""
    else
      var head := match t[0]
        case Lit(s) => s
        case Field(d) => "{" + NatToString(d) + "}";
      head + TemplateText(t[1..])
  }

  /** The template with its fields filled in. */
  function Render(t: seq<Piece>, args: seq<string>): string
    requires TemplateFor(t, |args|)
  {
    if |t| == 0 then ""
    else PieceText(t[0], args) + Render(t[1..], args)
  }

  /** Filling the pieces is what str.format does to the template's text. */
  lemma {:induction false} RenderIsFormat(t: seq<Piece>, args: seq<string>)
    requires TemplateFor(t, |args|) && Plain(t)
    ensures Format(TemplateText(t), args) == Render(t, args)
    decreases |t|
  {
    if |t| > 0 {
      RenderIsFormat(t[1..], args);
      match t[0]
      case Lit(s) =>
        assert PlainPiece(t[0]);
        FormatPlain(s, TemplateText(t[1..]), args);
      case Field(d) =>
        FormatField(d, TemplateText(t[1..]), args);
    }
  }

  /** The template `t0{k}t1{k+1}...`: each literal text followed by the next field, the
      fields numbered from k. */
  function Alternating(texts: seq<string>, k: nat): (t: seq<Piece>)
    ensures |t| == 2 * |texts|
  {
    if |texts| == 0 then [] else [Lit(texts[0]), Field(k)] + Alternating(texts[1..], k + 1)
  }

  /** The rendering of such a template: each text followed by the argument of its field. */
  function Interleave(texts: seq<string>, args: seq<string>, k: nat): string
    requires k + |texts| <= |args|
  {
    if |texts| == 0 then "" else texts[0] + (args[k] + Interleave(texts[1..], args, k + 1))
  }

  /** POLY_CMD_TEMP: the texts between the fields {0}..{4}. */
  const PolyTemplate: seq<Piece> :=
    Alternating(["gdal_polygonize.py ", " -b ", " -f \"ESRI Shapefile\" ", " ", " "], 0)

  /** CLIP_CMD_TEMP1, clip without an attribute filter: the texts before the fields
      {0}..{3}, then the closing text. */
  const ClipTemplate1: seq<Piece> :=
    Alternating(["gdalwarp ", " ", " -cutline ", " -crop_to_cutline -dstnodata "], 0) + [Lit(" -of ENVI")]

  /** CLIP_CMD_TEMP2, clip with an attribute filter: the texts before the fields
      {0}..{4}, then the closing text. */
  const ClipTemplate2: seq<Piece> :=
    Alternating(["gdalwarp ", " ", " -cutline ", " ", " -crop_to_cutline -dstnodata "], 0) + [Lit(" -of ENVI")]

  /** The opening of the filter: the field compared with the first attribute. */
  const QueryTemplate: seq<Piece> := Alternating(["-cwhere \"", "="], 0)

  /** The text put before each further attribute. */
  const OrTemplate: seq<Piece> := Alternating([" OR "], 0) + [Lit("='")]

  /** The separator the further attributes are joined with; its field is filled in after
      the join. */
  const OrSeparator: string := "' OR {0}='"

  /** Rendering a concatenation of templates is concatenating their renderings. */
  lemma {:induction false} TemplateForAppend(t1: seq<Piece>, t2: seq<Piece>, n: nat)
    requires TemplateFor(t1, n) && TemplateFor(t2, n)
    ensures TemplateFor(t1 + t2, n)
    decreases |t1|
  {
    if |t1| == 0 {
      assert t1 + t2 == t2;
    } else {
      TemplateForAppend(t1[1..], t2, n);
      assert (t1 + t2)[1..] == t1[1..] + t2;
    }
  }

  lemma {:induction false} RenderAppend(t1: seq<Piece>, t2: seq<Piece>, args: seq<string>)
    requires TemplateFor(t1, |args|) && TemplateFor(t2, |args|)
    ensures TemplateFor(t1 + t2, |args|)
    ensures Render(t1 + t2, args) == Render(t1, args) + Render(t2, args)
    decreases |t1|
  {
    TemplateForAppend(t1, t2, |args|);
    if |t1| == 0 {
      assert t1 + t2 == t2;
    } else {
      var t := t1 + t2;
      assert t[0] == t1[0] && t[1..] == t1[1..] + t2;
      RenderAppend(t1[1..], t2, args);
      var x := PieceText(t1[0], args);
      ConcatAssoc(x, Render(t1[1..], args), Render(t2, args));
    }
  }

  /** An alternating template names fields k.. and renders as its interleaving. */
  lemma {:induction false} RenderAlternating(texts: seq<string>, args: seq<string>, k: nat)
    requires k + |texts| <= |args|
    ensures TemplateFor(Alternating(texts, k), |args|)
    ensures Render(Alternating(texts, k), args) == Interleave(texts, args, k)
    decreases |texts|
  {
    if |texts| > 0 {
      var rest := Alternating(texts[1..], k + 1);
      RenderAlternating(texts[1..], args, k + 1);
      var t := [Lit(texts[0]), Field(k)] + rest;
      assert t[1..] == [Field(k)] + rest;
      assert t[1..][1..] == rest;
    }
  }

  /** An alternating template with brace-free texts and one-digit fields is plain. */
  lemma {:induction false} PlainAlternating(texts: seq<string>, k: nat)
    requires forall j :: 0 <= j < |texts| ==> BraceFree(texts[j])
    requires k + |texts| <= 10
    ensures Plain(Alternating(texts, k))
    decreases |texts|
  {
    if |texts| > 0 {
      assert forall j :: 0 <= j < |texts| - 1 ==> texts[1..][j] == texts[j + 1];
      PlainAlternating(texts[1..], k + 1);
      var t := Alternating(texts, k);
      assert t[1..] == [Field(k)] + Alternating(texts[1..], k + 1);
      assert t[1..][1..] == Alternating(texts[1..], k + 1);
      assert PlainPiece(t[0]);
    }
  }

  /** A plain template followed by a brace-free closing literal is plain. */
  lemma {:induction false} PlainClosed(t: seq<Piece>, last: string)
    requires Plain(t) && BraceFree(last)
    ensures Plain(t + [Lit(last)])
    decreases |t|
  {
    if |t| == 0 {
      assert [Lit(last)][1..] == [];
      assert t + [Lit(last)] == [Lit(last)];
    } else {
      PlainClosed(t[1..], last);
      assert (t + [Lit(last)])[1..] == t[1..] + [Lit(last)];
    }
  }

  /** POLY_CMD_TEMP reads back as its pieces. */
  lemma PolyTemplatePlain()
    ensures Plain(PolyTemplate)
  {
    var texts := ["gdal_polygonize.py ", " -b ", " -f \"ESRI Shapefile\" ", " ", " "];
    LiteralBraceFree(texts[0]);
    LiteralBraceFree(texts[1]);
    LiteralBraceFree(texts[2]);
    LiteralBraceFree(texts[3]);
    LiteralBraceFree(texts[4]);
    PlainAlternating(texts, 0);
  }

  /** CLIP_CMD_TEMP1 reads back as its pieces. */
  lemma ClipTemplate1Plain()
    ensures Plain(ClipTemplate1)
  {
    var texts := ["gdalwarp ", " ", " -cutline ", " -crop_to_cutline -dstnodata "];
    LiteralBraceFree(texts[0]);
    LiteralBraceFree(texts[1]);
    LiteralBraceFree(texts[2]);
    LiteralBraceFree(texts[3]);
    PlainAlternating(texts, 0);
    LiteralBraceFree(" -of ENVI");
    PlainClosed(Alternating(texts, 0), " -of ENVI");
  }

  /** CLIP_CMD_TEMP2 reads back as its pieces. */
  lemma ClipTemplate2Plain()
    ensures Plain(ClipTemplate2)
  {
    var texts := ["gdalwarp ", " ", " -cutline ", " ", " -crop_to_cutline -dstnodata "];
    LiteralBraceFree(texts[0]);
    LiteralBraceFree(texts[1]);
    LiteralBraceFree(texts[2]);
    LiteralBraceFree(texts[3]);
    LiteralBraceFree(texts[4]);
    PlainAlternating(texts, 0);
    LiteralBraceFree(" -of ENVI");
    PlainClosed(Alternating(texts, 0), " -of ENVI");
  }

  /** The filter opening reads back as its pieces. */
  lemma QueryTemplatePlain()
    ensures Plain(QueryTemplate)
  {
    var texts := ["-cwhere \"", "="];
    LiteralBraceFree(texts[0]);
    LiteralBraceFree(texts[1]);
    PlainAlternating(texts, 0);
  }

  /** The text before further attributes reads back as its pieces. */
  lemma OrTemplatePlain()
    ensures Plain(OrTemplate)
  {
    var texts := [" OR "];
    LiteralBraceFree(texts[0]);
    PlainAlternating(texts, 0);
    LiteralBraceFree("='");
    PlainClosed(Alternating(texts, 0), "='");
  }

  /** A closing literal after the fields. */
  lemma RenderClosed(texts: seq<string>, last: string, args: seq<string>)
    requires |texts| <= |args|
    ensures TemplateFor(Alternating(texts, 0) + [Lit(last)], |args|)
    ensures Render(Alternating(texts, 0) + [Lit(last)], args) == Interleave(texts, args, 0) + last
  {
    RenderAlternating(texts, args, 0);
    assert [Lit(last)][1..] == [];
    assert TemplateFor([Lit(last)], |args|);
    assert Render([Lit(last)], args) == last;
    RenderAppend(Alternating(texts, 0), [Lit(last)], args);
  }

  /** Interleaving one text with one argument, written out. */
  lemma Interleave1(l0: string, args: seq<string>)
    requires |args| >= 1
    ensures Interleave([l0], args, 0) == l0 + (args[0] + "")
  {
    assert [l0][1..] == [];
  }

  /** Interleaving two texts with two arguments, written out. */
  lemma Interleave2(l0: string, l1: string, args: seq<string>)
    requires |args| >= 2
    ensures Interleave([l0, l1], args, 0) == l0 + (args[0] + (l1 + (args[1] + "")))
  {
    var ts := [l0, l1];
    assert ts[1..] == [l1];
    assert ts[2..] == [];
    var r := "";
    r := l1 + (args[1] + r);
    assert Interleave(ts[1..], args, 1) == r;
    r := l0 + (args[0] + r);
    assert ts[0..] == ts;
  }

  /** Interleaving four texts with four arguments, written out. */
  lemma Interleave4(l0: string, l1: string, l2: string, l3: string, args: seq<string>)
    requires |args| >= 4
    ensures Interleave([l0, l1, l2, l3], args, 0) ==
      l0 + (args[0] + (l1 + (args[1] + (l2 + (args[2] + (l3 + (args[3] + "")))))))
  {
    var ts := [l0, l1, l2, l3];
    assert ts[1..] == [l1, l2, l3];
    assert ts[2..] == [l2, l3];
    assert ts[3..] == [l3];
    assert ts[4..] == [];
    var r := "";
    r := l3 + (args[3] + r);
    assert Interleave(ts[3..], args, 3) == r;
    r := l2 + (args[2] + r);
    assert Interleave(ts[2..], args, 2) == r;
    r := l1 + (args[1] + r);
    assert Interleave(ts[1..], args, 1) == r;
    r := l0 + (args[0] + r);
    assert ts[0..] == ts;
  }

  /** Interleaving five texts with five arguments, written out. */
  lemma Interleave5(l0: string, l1: string, l2: string, l3: string, l4: string, args: seq<string>)
    requires |args| >= 5
    ensures Interleave([l0, l1, l2, l3, l4], args, 0) ==
      l0 + (args[0] + (l1 + (args[1] + (l2 + (args[2] + (l3 + (args[3] + (l4 + (args[4] + "")))))))))
  {
    var ts := [l0, l1, l2, l3, l4];
    assert ts[1..] == [l1, l2, l3, l4];
    assert ts[2..] == [l2, l3, l4];
    assert ts[3..] == [l3, l4];
    assert ts[4..] == [l4];
    assert ts[5..] == [];
    var r := "";
    r := l4 + (args[4] + r);
    assert Interleave(ts[4..], args, 4) == r;
    r := l3 + (args[3] + r);
    assert Interleave(ts[3..], args, 3) == r;
    r := l2 + (args[2] + r);
    assert Interleave(ts[2..], args, 2) == r;
    r := l1 + (args[1] + r);
    assert Interleave(ts[1..], args, 1) == r;
    r := l0 + (args[0] + r);
    assert ts[0..] == ts;
  }

  /** POLY_CMD_TEMP filled with its five arguments. */
  lemma PolyTemplateRender(args: seq<string>)
    requires |args| == 5
    ensures TemplateFor(PolyTemplate, 5)
    ensures Render(PolyTemplate, args) ==
      "gdal_polygonize.py " + (args[0] + (" -b " + (args[1] + (" -f \"ESRI Shapefile\" " +
      (args[2] + (" " + (args[3] + (" " + args[4]))))))))
  {
    RenderAlternating(["gdal_polygonize.py ", " -b ", " -f \"ESRI Shapefile\" ", " ", " "], args, 0);
    Interleave5("gdal_polygonize.py ", " -b ", " -f \"ESRI Shapefile\" ", " ", " ", args);
    assert args[4] + "" == args[4];
  }

  lemma LiteralBraceFree(s: string)
    requires forall i :: 0 <= i < |s| ==> s[i] != '{' && s[i] != '}'
    ensures '{' !in s && '}' !in s
  {
  }

  /** The shapefile the clip polygons come from: the clip path itself when it names a
      shapefile, otherwise a shapefile named after the clip raster, in the output's
      directory. */
  function Shapefile(clip: string, output: string): (r: string)
    ensures EndsWith(clip, ".shp") ==> r == clip
    ensures EndsWith(r, ".shp")
    ensures !EndsWith(clip, ".shp") ==>
      Basename(r) == Stem(Basename(clip)) + ".shp" && Dirname(r) == Dirname(output)
  {
    if EndsWith(clip, ".shp") then clip
    else
      var f := Stem(Basename(clip)) + ".shp";
      ShapefileName(clip);
      JoinSplit(output, f);
      SuffixOfSuffix(PathJoin(Dirname(output), f), f, ".shp");
      PathJoin(Dirname(output), f)
  }

  /** The layer name: every ".shp" in the shapefile path replaced by ".lyr". It keeps the
      path's length, and for a shapefile path it ends in ".lyr": the trailing ".shp" is
      always among the occurrences replaced. */
  function Layer(shapefile: string): (r: string)
    ensures |r| == |shapefile|
    ensures EndsWith(shapefile, ".shp") ==>
      r == ReplaceAll(shapefile[..|shapefile| - 4], ".shp", ".lyr") + ".lyr" && EndsWith(r, ".lyr")
  {
    if EndsWith(shapefile, ".shp") then
      var a := shapefile[..|shapefile| - 4];
      assert shapefile == a + ".shp";
      ShpBorderFree();
      ReplaceAllTrailing(a, ".shp", ".lyr");
      ReplaceAll(shapefile, ".shp", ".lyr")
    else ReplaceAll(shapefile, ".shp", ".lyr")
  }

  /** The polygonize command for the mask written to temp.tif: the mask file, the band,
      the shapefile, the layer name and the field name, in that order. */
  function PolyStatement(band: string, shapefile: string, field: string): (r: string)
    ensures r ==
      "gdal_polygonize.py " + ("temp.tif" + (" -b " + (band + (" -f \"ESRI Shapefile\" " +
      (shapefile + (" " + (Layer(shapefile) + (" " + field))))))))
  {
    PolyTemplateRender(["temp.tif", band, shapefile, Layer(shapefile), field]);
    Render(PolyTemplate, ["temp.tif", band, shapefile, Layer(shapefile), field])
  }

  /** str() of the --nodata option: its text, or "None" when it was not given. */
  function NodataText(nodata: Option<string>): string {
    match nodata
    case None => "None"
    case Some(s) => s
  }

  /** Text str.format leaves alone when it is the template. */
  predicate BraceFree(s: string) {
    '{' !in s && '}' !in s
  }

  /** The attribute filter as the program assembles it: the first attribute through the
      opening template, the others joined with the separator, whose field is then filled
      with the field name. The result is `-cwhere "F='a0' OR F='a1' ... OR F='an'"`: one
      comparison per attribute, in order, each attribute in single quotes, the whole in
      double quotes. */
  function WhereClause(field: string, attributes: seq<string>): (r: string)
    requires |attributes| >= 1
    requires forall k :: 0 <= k < |attributes| ==> BraceFree(attributes[k])
    ensures r == "-cwhere \"" + Join(Comparisons(field, attributes), " OR ") + "\""
  {
    QueryForm(field, attributes[0]);
    OrForm(field);
    WhereClauseParts(field, attributes);
    var query := Render(QueryTemplate, [field, "'" + attributes[0] + "'"]);
    var addQuery :=
      if |attributes| > 1 then
        Render(OrTemplate, [field]) + Format(Join(attributes[1..], OrSeparator), [field]) + "'" + "\""
      else "\"";
    query + addQuery
  }

  /** The gdalwarp command: the filter-free template without attributes, the other one
      with the filter. The clean-up meant for an absent nodata value builds a new string
      and drops it, so the command is the same either way. */
  function ClipStatement(source: string, output: string, shapefile: string, nodata: Option<string>,
                         field: string, attributes: seq<string>): (r: string)
    requires forall k :: 0 <= k < |attributes| ==> BraceFree(attributes[k])
    ensures |attributes| == 0 ==>
      r == "gdalwarp " + (source + (" " + (output + (" -cutline " + (shapefile +
        (" -crop_to_cutline -dstnodata " + (NodataText(nodata) + " -of ENVI")))))))
    ensures |attributes| > 0 ==>
      r == "gdalwarp " + (source + (" " + (output + (" -cutline " + (shapefile + (" " +
        (WhereClause(field, attributes) + (" -crop_to_cutline -dstnodata " + (NodataText(nodata) + " -of ENVI")))))))))
  {
    if |attributes| == 0 then
      ClipTemplate1Form(source, output, shapefile, NodataText(nodata));
      Render(ClipTemplate1, [source, output, shapefile, NodataText(nodata)])
    else
      ClipTemplate2Form(source, output, shapefile, WhereClause(field, attributes), NodataText(nodata));
      Render(ClipTemplate2, [source, output, shapefile, WhereClause(field, attributes), NodataText(nodata)])
  }

  /** The shell commands `main` runs, in order: the polygonize command when the clip file
      is a raster, then the clip command. */
  function Commands(source: string, clip: string, output: string, band: string, nodata: Option<string>,
                    field: string, attributes: seq<string>): (cs: seq<string>)
    requires forall k :: 0 <= k < |attributes| ==> BraceFree(attributes[k])
    ensures |cs| >= 1 && (|cs| == 2 <==> !EndsWith(clip, ".shp"))
    ensures cs[|cs| - 1] == ClipStatement(source, output, Shapefile(clip, output), nodata, field, attributes)
  {
    var shapefile := Shapefile(clip, output);
    var clipStatement := ClipStatement(source, output, shapefile, nodata, field, attributes);
    if EndsWith(clip, ".shp") then [clipStatement]
    else [PolyStatement(band, shapefile, field), clipStatement]
  }

  /** The name the shapefile gets: the clip file's name without its extension, plus
      ".shp"; it holds no '/'. */
  lemma ShapefileName(clip: string)
    ensures var f := Stem(Basename(clip)) + ".shp";
      '/' !in f && EndsWith(f, ".shp") && !StartsWith(f, "/")
  {
    var base := Basename(clip);
    var stem := Stem(base);
    SlashFreePrefix(base, stem);
    assert '/' !in ".shp";
    SlashFreeAppend(stem, ".shp");
  }

  lemma SlashFreePrefix(s: string, p: string)
    requires '/' !in s && |p| <= |s| && p == s[..|p|]
    ensures '/' !in p
  {
    forall i | 0 <= i < |p| ensures p[i] != '/' {
      assert p[i] == s[i];
    }
  }

  lemma SlashFreeAppend(x: string, y: string)
    requires '/' !in x && '/' !in y && |y| > 0
    ensures var f := x + y; '/' !in f && EndsWith(f, y) && !StartsWith(f, "/")
  {
    var f := x + y;
    forall i | 0 <= i < |f| ensures f[i] != '/' {
      if i < |x| { assert f[i] == x[i]; } else { assert f[i] == y[i - |x|]; }
    }
    assert f[|f| - |y|..] == y;
    assert f[..1] != "/" by { assert f[..1][0] == f[0]; }
  }

  lemma SuffixOfSuffix(s: string, t: string, u: string)
    requires EndsWith(s, t) && EndsWith(t, u)
    ensures EndsWith(s, u)
  {
    assert s[|s| - |u|..] == s[|s| - |t|..][|t| - |u|..];
  }

  lemma ShpBorderFree()
    ensures BorderFree(".shp")
  {
    var pat := ".shp";
    assert pat[..1] != pat[3..] by { assert pat[..1][0] == '.' && pat[3..][0] == 'p'; }
    assert pat[..2] != pat[2..] by { assert pat[..2][0] == '.' && pat[2..][0] == 'h'; }
    assert pat[..3] != pat[1..] by { assert pat[..3][0] == '.' && pat[1..][0] == 's'; }
  }

  /** Joining with the separator and then filling its field is joining with the filled
      separator, for attributes without braces. */
  lemma {:induction false} FormatJoin(xs: seq<string>, field: string)
    requires |xs| >= 1 && forall k :: 0 <= k < |xs| ==> BraceFree(xs[k])
    ensures Format(Join(xs, OrSeparator), [field]) == Join(xs, "' OR " + field + "='")
  {
    var args := [field];
    if |xs| == 1 {
      FormatPlain(xs[0], "", args);
      assert xs[0] + "" == xs[0];
    } else {
      var rest := Join(xs[1..], OrSeparator);
      var f0 := ['{', ('0' as int + 0) as char, '}'];
      assert OrSeparator == "' OR " + (f0 + "='");
      assert Join(xs, OrSeparator) == xs[0] + ("' OR " + (f0 + ("='" + rest)));
      FormatSeparated(xs[0], "' OR ", "='", rest, args);
      assert forall k :: 0 <= k < |xs| - 1 ==> xs[1..][k] == xs[k + 1];
      FormatJoin(xs[1..], field);
      JoinRegroup(xs[0], "' OR ", field, "='", Join(xs[1..], "' OR " + field + "='"));
    }
  }

  /** One separator `a{0}b` between a brace-free x and the rest, filled in. */
  lemma FormatSeparated(x: string, a: string, b: string, rest: string, args: seq<string>)
    requires '{' !in x && '{' !in a && '{' !in b && |args| >= 1
    ensures Format(x + (a + (['{', ('0' as int + 0) as char, '}'] + (b + rest))), args) ==
      x + (a + (args[0] + (b + Format(rest, args))))
  {
    FormatPlain(x, a + (['{', ('0' as int + 0) as char, '}'] + (b + rest)), args);
    FormatPlain(a, ['{', ('0' as int + 0) as char, '}'] + (b + rest), args);
    FormatField(0, b + rest, args);
    FormatPlain(b, rest, args);
  }

  lemma JoinRegroup(x: string, a: string, f: string, b: string, j: string)
    ensures x + (a + (f + (b + j))) == x + (a + f + b) + j
  {
  }

  /** The comparisons of a filter, each attribute single-quoted. */
  function Comparisons(field: string, attributes: seq<string>): seq<string> {
    seq(|attributes|, k requires 0 <= k < |attributes| => field + "='" + attributes[k] + "'")
  }

  /** Joining the quoted comparisons is quoting the attributes joined with the filled
      separator. */
  lemma {:induction false} JoinComparisons(field: string, attributes: seq<string>)
    requires |attributes| >= 1
    ensures Join(Comparisons(field, attributes), " OR ") ==
      field + "='" + Join(attributes, "' OR " + field + "='") + "'"
  {
    var cs := Comparisons(field, attributes);
    if |attributes| > 1 {
      var rest := attributes[1..];
      JoinComparisons(field, rest);
      assert cs[1..] == Comparisons(field, rest);
      var j := Join(rest, "' OR " + field + "='");
      assert Join(attributes, "' OR " + field + "='") == attributes[0] + ("' OR " + field + "='") + j;
      assert Join(cs, " OR ") == cs[0] + " OR " + (field + "='" + j + "'");
    }
  }

  /** The opening of the filter for a first attribute a. */
  lemma QueryForm(field: string, a: string)
    ensures TemplateFor(QueryTemplate, 2)
    ensures Render(QueryTemplate, [field, "'" + a + "'"]) == "-cwhere \"" + field + "='" + a + "'"
  {
    var args := [field, "'" + a + "'"];
    RenderAlternating(["-cwhere \"", "="], args, 0);
    Interleave2("-cwhere \"", "=", args);
    QueryRegroup("-cwhere \"", field, "=", "'", "='", a);
  }

  /** The equals sign and the opening quote of the first attribute read as one text. */
  lemma QueryRegroup(c: string, f: string, e: string, q: string, eq: string, a: string)
    requires eq == e + q
    ensures c + (f + (e + ((q + a + q) + ""))) == c + f + eq + a + q
  {
    assert (q + a + q) + "" == q + a + q;
  }

  /** The text put before each further attribute. */
  lemma OrForm(field: string)
    ensures TemplateFor(OrTemplate, 1)
    ensures Render(OrTemplate, [field]) == " OR " + field + "='"
  {
    RenderClosed([" OR "], "='", [field]);
    Interleave1(" OR ", [field]);
    assert field + "" == field;
  }

  /** The two groupings of the pieces of a filter with several attributes. */
  lemma Regroup(q: string, f: string, e: string, a: string, s: string, o: string, j: string, d: string)
    ensures (q + f + e + a + s) + (((o + f + e) + j) + s) + d ==
            (q + ((f + e) + ((a + (s + o + f + e)) + j) + s)) + d
  {
  }

  /** The pieces of the filter put together read as the quoted comparisons joined. */
  lemma WhereClauseParts(field: string, attributes: seq<string>)
    requires |attributes| >= 1
    requires forall k :: 0 <= k < |attributes| ==> BraceFree(attributes[k])
    ensures "-cwhere \"" + field + "='" + attributes[0] + "'" +
      (if |attributes| > 1 then
         " OR " + field + "='" + Format(Join(attributes[1..], OrSeparator), [field]) + "'" + "\""
       else "\"") ==
      "-cwhere \"" + Join(Comparisons(field, attributes), " OR ") + "\""
  {
    JoinComparisons(field, attributes);
    var a0 := attributes[0];
    var sep := "' OR " + field + "='";
    if |attributes| > 1 {
      var rest := attributes[1..];
      assert forall k :: 0 <= k < |rest| ==> rest[k] == attributes[k + 1];
      FormatJoin(rest, field);
      var j := Join(rest, sep);
      OrSplit();
      assert sep == "'" + " OR " + field + "='";
      assert Join(attributes, sep) == a0 + sep + j;
      Regroup("-cwhere \"", field, "='", a0, "'", " OR ", j, "\"");
    } else {
      assert Join(attributes, sep) == a0;
    }
  }

  lemma OrSplit()
    ensures "' OR " == "'" + " OR "
  {
  }

  /** A single attribute gives `-cwhere "F='a'"`. */
  lemma SingleAttribute(field: string, a: string)
    requires BraceFree(a)
    ensures WhereClause(field, [a]) == "-cwhere \"" + field + "='" + a + "'\""
  {
    assert Comparisons(field, [a]) == [field + "='" + a + "'"];
  }

  /** CLIP_CMD_TEMP1 filled with the source, the output, the shapefile and the nodata text. */
  lemma ClipTemplate1Form(source: string, output: string, shapefile: string, nodataText: string)
    ensures TemplateFor(ClipTemplate1, 4)
    ensures Render(ClipTemplate1, [source, output, shapefile, nodataText]) ==
      "gdalwarp " + (source + (" " + (output + (" -cutline " + (shapefile +
      (" -crop_to_cutline -dstnodata " + (nodataText + " -of ENVI")))))))
  {
    var args := [source, output, shapefile, nodataText];
    RenderClosed(["gdalwarp ", " ", " -cutline ", " -crop_to_cutline -dstnodata "], " -of ENVI", args);
    Interleave4("gdalwarp ", " ", " -cutline ", " -crop_to_cutline -dstnodata ", args);
    assert nodataText + "" == nodataText;
  }

  /** CLIP_CMD_TEMP2 filled with the source, the output, the shapefile, the filter and the
      nodata text. */
  lemma ClipTemplate2Form(source: string, output: string, shapefile: string, query: string, nodataText: string)
    ensures TemplateFor(ClipTemplate2, 5)
    ensures Render(ClipTemplate2, [source, output, shapefile, query, nodataText]) ==
      "gdalwarp " + (source + (" " + (output + (" -cutline " + (shapefile + (" " +
      (query + (" -crop_to_cutline -dstnodata " + (nodataText + " -of ENVI")))))))))
  {
    var args := [source, output, shapefile, query, nodataText];
    RenderClosed(["gdalwarp ", " ", " -cutline ", " ", " -crop_to_cutline -dstnodata "], " -of ENVI", args);
    Interleave5("gdalwarp ", " ", " -cutline ", " ", " -crop_to_cutline -dstnodata ", args);
    assert nodataText + "" == nodataText;
  }

  /** The nodata clean-up never takes effect: the clip command always ends with the
      crop and nodata options and the output format, so an absent value is passed to
      gdalwarp as "-dstnodata None". */
  lemma NodataAlwaysPassed(source: string, output: string, shapefile: string, nodata: Option<string>,
                           field: string, attributes: seq<string>)
    requires forall k :: 0 <= k < |attributes| ==> BraceFree(attributes[k])
    ensures EndsWith(ClipStatement(source, output, shapefile, nodata, field, attributes),
                     " -crop_to_cutline -dstnodata " + (NodataText(nodata) + " -of ENVI"))
    ensures nodata.None? ==>
      EndsWith(ClipStatement(source, output, shapefile, nodata, field, attributes),
               " -crop_to_cutline -dstnodata " + ("None" + " -of ENVI"))
  {
    var tail := " -crop_to_cutline -dstnodata " + (NodataText(nodata) + " -of ENVI");
    var w := tail;
    EndsWithAppend("", tail, tail);
    assert "" + tail == tail;
    if |attributes| > 0 {
      w := " " + (WhereClause(field, attributes) + w);
      EndsWithAppend(WhereClause(field, attributes), tail, tail);
      EndsWithAppend(" ", WhereClause(field, attributes) + tail, tail);
    }
    EndsWithNested("gdalwarp ", source, " ", output, " -cutline ", shapefile, w, tail);
  }

  /** The clause the clean-up is meant to delete. */
  const NodataClause := " -dstnodata None"

  /** `if not nodata`: no value was given, or an empty one. */
  predicate NodataMissing(nodata: Option<string>) {
    nodata.None? || nodata.value == ""
  }

  /** The clip command up to its nodata clause. */
  function ClipFront(source: string, output: string, shapefile: string, field: string,
                     attributes: seq<string>): string
    requires forall k :: 0 <= k < |attributes| ==> BraceFree(attributes[k])
  {
    "gdalwarp " + (source + (" " + (output + (" -cutline " + (shapefile +
      (if |attributes| == 0 then " -crop_to_cutline"
       else " " + (WhereClause(field, attributes) + " -crop_to_cutline")))))))
  }

  /** The clip command with the clean-up the program evidently means: the result of the
      replacement kept when no nodata value was given. */
  function CleanedClipStatement(source: string, output: string, shapefile: string, nodata: Option<string>,
                                field: string, attributes: seq<string>): string
    requires forall k :: 0 <= k < |attributes| ==> BraceFree(attributes[k])
  {
    var s := ClipStatement(source, output, shapefile, nodata, field, attributes);
    if NodataMissing(nodata) then ReplaceAll(s, NodataClause, "") else s
  }

  /** With the clean-up in effect, a run without a nodata value passes no nodata clause
      after the crop option: the command is its front, with any clause text in it
      deleted as str.replace would, followed directly by the output format. With a
      value the command is the one the program builds. */
  lemma CleanedDropsNodata(source: string, output: string, shapefile: string, nodata: Option<string>,
                           field: string, attributes: seq<string>)
    requires forall k :: 0 <= k < |attributes| ==> BraceFree(attributes[k])
    ensures nodata.None? ==>
      CleanedClipStatement(source, output, shapefile, nodata, field, attributes) ==
      ReplaceAll(ClipFront(source, output, shapefile, field, attributes), NodataClause, "") + " -of ENVI"
    ensures !NodataMissing(nodata) ==>
      CleanedClipStatement(source, output, shapefile, nodata, field, attributes) ==
      ClipStatement(source, output, shapefile, nodata, field, attributes)
  {
    if nodata.None? {
      ClipStatementAroundClause(source, output, shapefile, nodata, field, attributes);
      DeleteClause(ClipFront(source, output, shapefile, field, attributes));
    }
  }

  /** Deleting the clause from text that ends with it and the output format. */
  lemma DeleteClause(front: string)
    ensures ReplaceAll(front + (NodataClause + " -of ENVI"), NodataClause, "") ==
      ReplaceAll(front, NodataClause, "") + " -of ENVI"
  {
    NodataClauseBorderFree();
    ReplaceAllAcross(front, NodataClause, "", " -of ENVI");
    assert "" + " -of ENVI" == " -of ENVI";
  }

  /** Without a nodata value the clip command is its front, the clause and the format. */
  lemma ClipStatementAroundClause(source: string, output: string, shapefile: string, nodata: Option<string>,
                                  field: string, attributes: seq<string>)
    requires forall k :: 0 <= k < |attributes| ==> BraceFree(attributes[k])
    requires nodata.None?
    ensures ClipStatement(source, output, shapefile, nodata, field, attributes) ==
      ClipFront(source, output, shapefile, field, attributes) + (NodataClause + " -of ENVI")
  {
    NodataSplit();
    var x, r := " -crop_to_cutline", NodataClause + " -of ENVI";
    if |attributes| == 0 {
      Nest7("gdalwarp ", source, " ", output, " -cutline ", shapefile, x, r);
    } else {
      var w := WhereClause(field, attributes);
      ConcatAssoc(w, x, r);
      ConcatAssoc(" ", w + x, r);
      Nest7("gdalwarp ", source, " ", output, " -cutline ", shapefile, " " + (w + x), r);
    }
  }

  lemma NodataSplit()
    ensures " -crop_to_cutline -dstnodata " + ("None" + " -of ENVI") ==
      " -crop_to_cutline" + (NodataClause + " -of ENVI")
  {
  }

  lemma Nest7(a: string, b: string, c: string, d: string, e: string, f: string, g: string, r: string)
    ensures a + (b + (c + (d + (e + (f + (g + r)))))) == (a + (b + (c + (d + (e + (f + g)))))) + r
  {
    ConcatAssoc(f, g, r);
    ConcatAssoc(e, f + g, r);
    ConcatAssoc(d, e + (f + g), r);
    ConcatAssoc(c, d + (e + (f + g)), r);
    ConcatAssoc(b, c + (d + (e + (f + g))), r);
    ConcatAssoc(a, b + (c + (d + (e + (f + g)))), r);
  }

  /** No proper prefix of the clause is also a suffix of it. */
  lemma NodataClauseBorderFree()
    ensures BorderFree(NodataClause)
  {
    var p := NodataClause;
    forall k | 0 < k < |p| ensures p[..k] != p[|p| - k..] {
      if k == 5 {
        assert p[..k][1] == '-' && p[|p| - k..][1] == 'N';
      } else {
        assert p[..k][0] == ' ' && p[|p| - k..][0] != ' ';
      }
    }
  }

  /** A suffix of w is a suffix of any text ending with w. */
  lemma EndsWithNested(a: string, b: string, c: string, d: string, e: string, f: string, w: string, u: string)
    requires EndsWith(w, u)
    ensures EndsWith(a + (b + (c + (d + (e + (f + w))))), u)
  {
    EndsWithAppend(f, w, u);
    EndsWithAppend(e, f + w, u);
    EndsWithAppend(d, e + (f + w), u);
    EndsWithAppend(c, d + (e + (f + w)), u);
    EndsWithAppend(b, c + (d + (e + (f + w))), u);
    EndsWithAppend(a, b + (c + (d + (e + (f + w)))), u);
  }

  /** A suffix of s stays a suffix when text is put in front of s. */
  lemma EndsWithAppend(a: string, s: string, u: string)
    requires u == s || EndsWith(s, u)
    ensures EndsWith(a + s, u)
  {
    assert (a + s)[|a + s| - |u|..] == s[|s| - |u|..];
  }

  /** What `main` runs: for a shapefile clip path only the clip command, with that path as
      the cutline; for a raster clip path first the polygonize command writing the derived
      shapefile and its layer, then the clip command using that shapefile. */
  lemma CommandsOrder(source: string, clip: string, output: string, band: string, nodata: Option<string>,
                      field: string, attributes: seq<string>)
    requires forall k :: 0 <= k < |attributes| ==> BraceFree(attributes[k])
    ensures var cs := Commands(source, clip, output, band, nodata, field, attributes);
      var shapefile := Shapefile(clip, output);
      && (EndsWith(clip, ".shp") ==>
            cs == [ClipStatement(source, output, clip, nodata, field, attributes)])
      && (!EndsWith(clip, ".shp") ==>
            cs == [PolyStatement(band, shapefile, field), ClipStatement(source, output, shapefile, nodata, field, attributes)] &&
            Dirname(shapefile) == Dirname(output) && EndsWith(Layer(shapefile), ".lyr"))
  {
  }

  /** Filling the templates piece by piece is str.format on their text: the polygonize
      command is POLY_CMD_TEMP formatted with its five arguments. */
  lemma PolyStatementIsFormat(band: string, shapefile: string, field: string)
    ensures PolyStatement(band, shapefile, field) ==
      Format(TemplateText(PolyTemplate), ["temp.tif", band, shapefile, Layer(shapefile), field])
  {
    var args := ["temp.tif", band, shapefile, Layer(shapefile), field];
    PolyTemplateRender(args);
    PolyTemplatePlain();
    RenderIsFormat(PolyTemplate, args);
  }

  /** The clip command is CLIP_CMD_TEMP1 or CLIP_CMD_TEMP2 formatted with its arguments. */
  lemma ClipStatementIsFormat(source: string, output: string, shapefile: string, nodata: Option<string>,
                              field: string, attributes: seq<string>)
    requires forall k :: 0 <= k < |attributes| ==> BraceFree(attributes[k])
    ensures |attributes| == 0 ==>
      ClipStatement(source, output, shapefile, nodata, field, attributes) ==
      Format(TemplateText(ClipTemplate1), [source, output, shapefile, NodataText(nodata)])
    ensures |attributes| > 0 ==>
      ClipStatement(source, output, shapefile, nodata, field, attributes) ==
      Format(TemplateText(ClipTemplate2), [source, output, shapefile, WhereClause(field, attributes), NodataText(nodata)])
  {
    if |attributes| == 0 {
      var args := [source, output, shapefile, NodataText(nodata)];
      ClipTemplate1Form(source, output, shapefile, NodataText(nodata));
      ClipTemplate1Plain();
      RenderIsFormat(ClipTemplate1, args);
    } else {
      var args := [source, output, shapefile, WhereClause(field, attributes), NodataText(nodata)];
      ClipTemplate2Form(source, output, shapefile, WhereClause(field, attributes), NodataText(nodata));
      ClipTemplate2Plain();
      RenderIsFormat(ClipTemplate2, args);
    }
  }

  /** The filter is the opening text formatted with the field and the first quoted
      attribute, followed, when there are more attributes, by the " OR {0}='" text
      formatted with the field, the other attributes joined with the separator and
      formatted with the field, and the closing quotes. */
  lemma WhereClauseIsFormat(field: string, attributes: seq<string>)
    requires |attributes| >= 1
    requires forall k :: 0 <= k < |attributes| ==> BraceFree(attributes[k])
    ensures WhereClause(field, attributes) ==
      Format(TemplateText(QueryTemplate), [field, "'" + attributes[0] + "'"]) +
      (if |attributes| > 1 then
         Format(TemplateText(OrTemplate), [field]) + Format(Join(attributes[1..], OrSeparator), [field]) + "'" + "\""
       else "\"")
  {
    QueryForm(field, attributes[0]);
    QueryTemplatePlain();
    RenderIsFormat(QueryTemplate, [field, "'" + attributes[0] + "'"]);
    OrForm(field);
    OrTemplatePlain();
    RenderIsFormat(OrTemplate, [field]);
  }
}
