/**
 * The two textual renderings of a fitted curve: the spreadsheet formula of
 * `get_excel_formula` and the human-readable formula that `perform_regression`
 * stores with the best model. Both are fixed templates per model name, filled
 * with the text of the two coefficients: `Fill(t, a, b)` is
 * `t.prefix + a + t.middle + b + t.suffix`.
 *
 * `Decode` reads a rendered formula back into its model and coefficient texts;
 * the round-trip lemmas show that a rendering loses neither.
 */
module Formulas {
  import opened Wrappers
  import opened Floats
  import opened Models
  import opened Formatting

  /** The two fitted coefficients `params[0]`, `params[1]`. */
  datatype Params = Params(a: Float, b: Float)

  datatype Template = Template(prefix: string, middle: string, suffix: string)

  function Fill(t: Template, a: string, b: string): string
  {
    t.prefix + a + t.middle + b + t.suffix
  }

  /** The spreadsheet formula grammar, the input cell being `A1`. */
  function ExcelTemplate(k: ModelKind): Template
  {
    match k
    case Linear => Template("=(", " * A1) + ", "")
    case Exponential => Template("=(", " * EXP(", " * A1))")
    case Logarithmic => Template("=(", " * LN(A1)) + ", "")
    case PowerLaw => Template("=(", " * (A1^", "))")
  }

  /** The human-readable formula grammar. */
  function HumanTemplate(k: ModelKind): Template
  {
    match k
    case Linear => Template("y = ", " * x + ", "")
    case Exponential => Template("y = ", " * e^(", " * x)")
    case Logarithmic => Template("y = ", " * ln(x) + ", "")
    case PowerLaw => Template("y = ", " * x^", "")
  }

  /**
   * `get_excel_formula(model, params)`: `repr` is Python's `str` on a float,
   * `separator` the decimal-separator preference read by `format_number`.
   * A name outside the catalog matches no branch and yields `None`.
   */
  function ExcelFormula(separator: string, repr: Float -> string, model: string, params: Params): (r: Option<string>)
    ensures r.Some? <==> KindOf(model).Some?
    ensures r.Some? ==> r.value == Fill(ExcelTemplate(KindOf(model).value),
                                        FormatNumber(separator, repr(params.a)),
                                        FormatNumber(separator, repr(params.b)))
    ensures r.Some? ==> |r.value| > 0 && r.value[0] == '='
  {
    var a := FormatNumber(separator, repr(params.a));
    var b := FormatNumber(separator, repr(params.b));
    if model == "Linear" then Some("=(" + a + " * A1) + " + b)
    else if model == "Exponential" then Some("=(" + a + " * EXP(" + b + " * A1))")
    else if model == "Logarithmic" then Some("=(" + a + " * LN(A1)) + " + b)
    else if model == "Power Law" then Some("=(" + a + " * (A1^" + b + "))")
    else None
  }

  /**
   * The `best_formula` branch chain of `perform_regression`: `fixed4` is the
   * `:.4f` conversion. No separator preference applies here. A name outside
   * the catalog matches no branch (`None`: the variable keeps its value).
   */
  function HumanFormula(model: string, params: Params, fixed4: Float -> string): (r: Option<string>)
    ensures r.Some? <==> KindOf(model).Some?
    ensures r.Some? ==> r.value == Fill(HumanTemplate(KindOf(model).value), fixed4(params.a), fixed4(params.b))
    ensures r.Some? ==> r.value[..4] == "y = "
  {
    var a := fixed4(params.a);
    var b := fixed4(params.b);
    if model == "Linear" then Some("y = " + a + " * x + " + b)
    else if model == "Exponential" then Some("y = " + a + " * e^(" + b + " * x)")
    else if model == "Logarithmic" then Some("y = " + a + " * ln(x) + " + b)
    else if model == "Power Law" then Some("y = " + a + " * x^" + b)
    else None
  }

  // ---------------------------------------------------------------------------
  // Reading a formula back

  datatype Decoded = Decoded(kind: ModelKind, a: string, b: string)

  /** Index of the first `c` in `s`, or `|s|` when there is none. */
  function IndexOf(s: string, c: char): (n: nat)
    ensures n <= |s|
    ensures c !in s[..n]
    ensures n < |s| ==> s[n] == c
  {
    if s == [] then 0
    else if s[0] == c then 0
    else
      var n := 1 + IndexOf(s[1..], c);
      assert s[..n] == [s[0]] + s[1..][..n - 1];
      n
  }

  /**
   * Reads `s` as a filling of `t`: the first coefficient runs up to the first
   * space after the prefix, the second lies between the middle and the suffix.
   */
  function Match(t: Template, s: string): Option<(string, string)>
  {
    if |s| < |t.prefix| || s[..|t.prefix|] != t.prefix then None
    else
      var rest := s[|t.prefix|..];
      var n := IndexOf(rest, ' ');
      var tail := rest[n..];
      if |tail| < |t.middle| + |t.suffix| || tail[..|t.middle|] != t.middle
         || tail[|tail| - |t.suffix|..] != t.suffix
      then None
      else Some((rest[..n], tail[|t.middle|..|tail| - |t.suffix|]))
  }

  function DecodeFrom(table: ModelKind -> Template, s: string, kinds: seq<ModelKind>): Option<Decoded>
  {
    if kinds == [] then None
    else
      match Match(table(kinds[0]), s)
      case Some((a, b)) => Some(Decoded(kinds[0], a, b))
      case None => DecodeFrom(table, s, kinds[1..])
  }

  /** The model and coefficient texts of a formula, trying the catalog in order. */
  function Decode(table: ModelKind -> Template, s: string): Option<Decoded>
  {
    DecodeFrom(table, s, CATALOG)
  }

  /** Neither string is a prefix of the other. */
  predicate PrefixFree(m1: string, m2: string)
  {
    !(m1 <= m2) && !(m2 <= m1)
  }

  /**
   * A template table can be read back: one common prefix, every middle starts
   * with a space, and no two middles are prefixes of each other.
   */
  ghost predicate Decodable(table: ModelKind -> Template)
  {
    && (forall k1, k2 :: table(k1).prefix == table(k2).prefix)
    && (forall k :: |table(k).middle| > 0 && table(k).middle[0] == ' ')
    && (forall k1, k2 :: k1 != k2 ==> PrefixFree(table(k1).middle, table(k2).middle))
  }

  lemma ExcelTemplateDecodable()
    ensures Decodable(ExcelTemplate)
  {
    forall k1, k2 | k1 != k2
      ensures PrefixFree(ExcelTemplate(k1).middle, ExcelTemplate(k2).middle)
    {
      MiddlesDiffer(ExcelTemplate(k1).middle, ExcelTemplate(k2).middle, 3);
    }
  }

  lemma HumanTemplateDecodable()
    ensures Decodable(HumanTemplate)
  {
    forall k1, k2 | k1 != k2
      ensures PrefixFree(HumanTemplate(k1).middle, HumanTemplate(k2).middle)
    {
      if {k1, k2} == {Linear, PowerLaw} {
        MiddlesDiffer(HumanTemplate(k1).middle, HumanTemplate(k2).middle, 4);
      } else {
        MiddlesDiffer(HumanTemplate(k1).middle, HumanTemplate(k2).middle, 3);
      }
    }
  }

  lemma MiddlesDiffer(m1: string, m2: string, d: nat)
    requires d < |m1| && d < |m2| && m1[d] != m2[d]
    ensures PrefixFree(m1, m2)
  {
  }

  /** The first `c` of `a + x` is the head of `x` when `a` has none. */
  lemma {:induction false} IndexOfPast(a: string, x: string, c: char)
    requires c !in a && |x| > 0 && x[0] == c
    ensures IndexOf(a + x, c) == |a|
  {
    if a != [] {
      assert (a + x)[1..] == a[1..] + x;
      IndexOfPast(a[1..], x, c);
    }
  }

  /** A filled template matches itself and yields the two coefficient texts. */
  lemma {:induction false} MatchFill(t: Template, a: string, b: string)
    requires |t.middle| > 0 && t.middle[0] == ' '
    requires ' ' !in a
    ensures Match(t, Fill(t, a, b)) == Some((a, b))
  {
    var s := Fill(t, a, b);
    assert s[..|t.prefix|] == t.prefix;
    var rest := s[|t.prefix|..];
    assert rest == a + (t.middle + b + t.suffix);
    IndexOfPast(a, t.middle + b + t.suffix, ' ');
    var n := IndexOf(rest, ' ');
    var tail := rest[n..];
    assert tail == t.middle + b + t.suffix;
    assert tail[..|t.middle|] == t.middle;
    assert tail[|tail| - |t.suffix|..] == t.suffix;
    assert tail[|t.middle|..|tail| - |t.suffix|] == b;
    assert rest[..n] == a;
  }

  /** A filling of one template is rejected by a template of another model. */
  lemma {:induction false} MatchOther(table: ModelKind -> Template, k: ModelKind, other: ModelKind, a: string, b: string)
    requires Decodable(table) && k != other
    requires ' ' !in a
    ensures Match(table(other), Fill(table(k), a, b)) == None
  {
    var t, u := table(k), table(other);
    var s := Fill(t, a, b);
    assert u.prefix == t.prefix;
    assert s[..|u.prefix|] == u.prefix;
    var rest := s[|u.prefix|..];
    assert rest == a + (t.middle + b + t.suffix);
    IndexOfPast(a, t.middle + b + t.suffix, ' ');
    var n := IndexOf(rest, ' ');
    var tail := rest[n..];
    assert tail == t.middle + b + t.suffix;
    assert PrefixFree(t.middle, u.middle);
  }

  lemma {:induction false} DecodeFromFill(table: ModelKind -> Template, k: ModelKind, a: string, b: string, kinds: seq<ModelKind>)
    requires Decodable(table) && ' ' !in a
    requires k in kinds
    ensures DecodeFrom(table, Fill(table(k), a, b), kinds) == Some(Decoded(k, a, b))
  {
    if kinds[0] == k {
      MatchFill(table(k), a, b);
    } else {
      MatchOther(table, k, kinds[0], a, b);
      DecodeFromFill(table, k, a, b, kinds[1..]);
    }
  }

  /** Decoding a filled template of a decodable table gives back its parts. */
  lemma DecodeFill(table: ModelKind -> Template, k: ModelKind, a: string, b: string)
    requires Decodable(table) && ' ' !in a
    ensures Decode(table, Fill(table(k), a, b)) == Some(Decoded(k, a, b))
  {
    assert CATALOG[Rank(k)] == k;
    DecodeFromFill(table, k, a, b, CATALOG);
  }

  /**
   * The spreadsheet formula of a catalog model names that model and carries
   * both formatted coefficients, provided the text of the first has no space
   * (as `str` of a float never does).
   */
  lemma ExcelFormulaDecodes(separator: string, repr: Float -> string, model: string, params: Params)
    requires KindOf(model).Some?
    requires ' ' !in repr(params.a)
    ensures ExcelFormula(separator, repr, model, params).Some?
    ensures Decode(ExcelTemplate, ExcelFormula(separator, repr, model, params).value)
         == Some(Decoded(KindOf(model).value, FormatNumber(separator, repr(params.a)),
                         FormatNumber(separator, repr(params.b))))
  {
    FormatNumberKeepsAbsent(separator, repr(params.a), ' ');
    ExcelTemplateDecodable();
    DecodeFill(ExcelTemplate, KindOf(model).value, FormatNumber(separator, repr(params.a)),
               FormatNumber(separator, repr(params.b)));
  }

  /** The same for the human-readable formula and its `:.4f` coefficients. */
  lemma HumanFormulaDecodes(model: string, params: Params, fixed4: Float -> string)
    requires KindOf(model).Some?
    requires ' ' !in fixed4(params.a)
    ensures HumanFormula(model, params, fixed4).Some?
    ensures Decode(HumanTemplate, HumanFormula(model, params, fixed4).value)
         == Some(Decoded(KindOf(model).value, fixed4(params.a), fixed4(params.b)))
  {
    HumanTemplateDecodable();
    DecodeFill(HumanTemplate, KindOf(model).value, fixed4(params.a), fixed4(params.b));
  }

  /** Different models or coefficient texts never render to the same formula. */
  lemma ExcelFormulaInjective(separator: string, repr: Float -> string, m1: string, p1: Params, m2: string, p2: Params)
    requires KindOf(m1).Some? && KindOf(m2).Some?
    requires ' ' !in repr(p1.a) && ' ' !in repr(p2.a)
    requires ExcelFormula(separator, repr, m1, p1) == ExcelFormula(separator, repr, m2, p2)
    ensures m1 == m2
    ensures FormatNumber(separator, repr(p1.a)) == FormatNumber(separator, repr(p2.a))
    ensures FormatNumber(separator, repr(p1.b)) == FormatNumber(separator, repr(p2.b))
  {
    ExcelFormulaDecodes(separator, repr, m1, p1);
    ExcelFormulaDecodes(separator, repr, m2, p2);
  }
}
