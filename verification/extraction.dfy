/**
 * The callback the detail-page handler runs inside the page (`page.evaluate`):
 * read a few elements through `safeText`, cut the city out of the location line,
 * then scan the main-parameters list line by line for the year, mileage and model.
 */
module Extraction {

  import opened Options
  import opened Text

  /** An element matched by `document.querySelector`, as far as `innerText` goes (undefined when the element has none). */
  datatype Element = Element(innerText: Option<string>)

  /** What the callback reads from the rendered detail page. */
  datatype Document = Document(
    heading: Option<Element>,      // the `h1`
    price: Option<Element>,        // the price heading inside the price container
    description: Option<Element>,  // the description block
    location: Option<Element>,     // the "location - date" line
    parameters: seq<string>)       // innerText of each main-parameters list item, in document order

  /** The object the callback builds and returns. */
  datatype Dados = Dados(
    titulo: string, preco: string, descricao: string, cidade: string,
    ano: string, km: string, modelo: string)

  /**
   * `safeText`: the trimmed text of the element; `""` when the element is missing
   * or has no `innerText`. It never fails.
   */
  function SafeText(e: Option<Element>): (r: string)
    ensures Trimmed(r)
    ensures e.None? || e.value.innerText.None? ==> r == ""
  {
    match e
    case None => ""
    case Some(el) =>
      match el.innerText
      case None => ""
      case Some(t) => TrimCuts(t); Trim(t)
  }

  /** When the element has text, `safeText` keeps exactly that text minus surrounding white space. */
  lemma SafeTextOfText(t: string)
    ensures var r := SafeText(Some(Element(Some(t))));
      exists i :: 0 <= i <= |t| - |r| && r == t[i..i + |r|] && AllSpace(t[..i]) && AllSpace(t[i + |r|..])
  {
    TrimCuts(t);
  }

  /** Text that is already trimmed comes back unchanged. */
  lemma SafeTextOfTrimmed(t: string)
    requires Trimmed(t)
    ensures SafeText(Some(Element(Some(t)))) == t
  {
    TrimOfTrimmed(t);
  }

  /** `safeText(location).split('-')[0].trim()`. */
  function City(location: Option<Element>): (r: string)
    ensures '-' !in r && Trimmed(r)
    ensures location.None? || location.value.innerText.None? ==> r == ""
  {
    var cut := BeforeFirst(SafeText(location), '-');
    TrimCuts(cut);
    TrimKeepsOut(cut, '-');
    Trim(cut)
  }

  /**
   * With no `-` in the location text, the city is that whole text, trimmed.
   */
  lemma CityWithoutDash(t: string)
    requires '-' !in t
    ensures City(Some(Element(Some(t)))) == Trim(t)
  {
    var s := Trim(t);
    assert SafeText(Some(Element(Some(t)))) == s;
    TrimKeepsOut(t, '-');
    BeforeFirstWithoutSep(s, '-');
    TrimIdempotent(t);
  }

  /**
   * The city is the part of the location text before its first `-`, trimmed: the
   * whole-line trim applied first by `safeText` makes no difference.
   */
  lemma CityBeforeFirstDash(x: string, rest: string)
    requires '-' !in x
    ensures City(Some(Element(Some(x + "-" + rest)))) == Trim(x)
  {
    var i := DashSurvivesTrim(x, rest);
    TrimDropsLeadingSpace(x, i);
  }

  /**
   * Trimming `x + "-" + rest` only cuts white space off the front of `x`, so the
   * text before the first dash is what is left of `x`.
   */
  lemma DashSurvivesTrim(x: string, rest: string) returns (i: nat)
    requires '-' !in x
    ensures i <= |x| && AllSpace(x[..i])
    ensures BeforeFirst(Trim(x + "-" + rest), '-') == x[i..]
  {
    var t := x + "-" + rest;
    var s := Trim(t);
    i := TrimKeepsDash(x, rest);
    assert AllSpace(x[..i]) by {
      forall k | 0 <= k < i ensures IsSpace(x[..i][k]) { assert x[..i][k] == t[..i][k]; }
    }
    assert '-' !in x[i..] by {
      forall k | 0 <= k < |x| - i ensures x[i..][k] != '-' { assert x[i..][k] == x[i + k]; }
    }
    BeforeFirstAt(s, '-', x[i..]);
  }

  /** The white space `trim` cuts off the front of `x + "-" + rest` stops before the dash. */
  lemma TrimKeepsDash(x: string, rest: string) returns (i: nat)
    requires '-' !in x
    ensures var t := x + "-" + rest; var s := Trim(t);
      && i <= |x| && AllSpace(t[..i]) && |x| - i < |s|
      && s[..|x| - i] == x[i..] && s[|x| - i] == '-'
  {
    var t := x + "-" + rest;
    var s := Trim(t);
    TrimCuts(t);
    i := |t| - |TrimStart(t)|;
    assert t[|x|] == '-';
    TrimKeepsNonSpace(t, |x|);
    assert s == t[i..i + |s|];
    assert s[..|x| - i] == t[i..|x|] == x[i..];
  }

  /** A location line `city-rest` with a trimmed, dash-free city gives exactly that city. */
  lemma CityOfLocation(city: string, rest: string)
    requires Trimmed(city) && '-' !in city
    ensures City(Some(Element(Some(city + "-" + rest)))) == city
  {
    CityBeforeFirstDash(city, rest);
    TrimOfTrimmed(city);
  }

  /** The three parameters the scan looks for, with the text that marks each one. */
  datatype Param = Year | Mileage | Model

  function Label(p: Param): string
  {
    match p
    case Year => "Ano"
    case Mileage => "Quilómetros"
    case Model => "Modelo"
  }

  /** The `"Label: "` text removed from a matching line. */
  function Prefix(p: Param): string
  {
    match p
    case Year => "Ano: "
    case Mileage => "Quilómetros: "
    case Model => "Modelo: "
  }

  function Get(d: Dados, p: Param): string
  {
    match p
    case Year => d.ano
    case Mileage => d.km
    case Model => d.modelo
  }

  /** The fields read through `safeText`, which the parameter scan never touches. */
  predicate SameScraped(d: Dados, e: Dados)
  {
    d.titulo == e.titulo && d.preco == e.preco && d.descricao == e.descricao && d.cidade == e.cidade
  }

  /**
   * The value kept for a matching line: the line with its first `"Label: "`
   * removed, then trimmed.
   */
  function Clean(txt: string, p: Param): (r: string)
    ensures Trimmed(r)
  {
    var v := ReplaceFirst(txt, Prefix(p), "");
    TrimCuts(v);
    Trim(v)
  }

  /** One turn of the `forEach`: the three label tests, independent of each other. */
  function Step(d: Dados, txt: string): Dados
  {
    var d1 := if Contains(txt, Label(Year)) then d.(ano := Clean(txt, Year)) else d;
    var d2 := if Contains(txt, Label(Mileage)) then d1.(km := Clean(txt, Mileage)) else d1;
    if Contains(txt, Label(Model)) then d2.(modelo := Clean(txt, Model)) else d2
  }

  /** The scan of `lines` in order, starting from `d`. */
  function Scan(d: Dados, lines: seq<string>): Dados
  {
    if lines == [] then d else Step(Scan(d, lines[..|lines| - 1]), lines[|lines| - 1])
  }

  /** The object as it stands before the scan. */
  function Initial(doc: Document): (r: Dados)
    ensures r.ano == r.km == r.modelo == ""
  {
    Dados(SafeText(doc.heading), SafeText(doc.price), SafeText(doc.description), City(doc.location), "", "", "")
  }

  /** What the callback returns for `doc`. */
  function Extracted(doc: Document): Dados
  {
    Scan(Initial(doc), doc.parameters)
  }

  /** The callback itself: build the object, then update it line by line. */
  method Extract(doc: Document) returns (dados: Dados)
    ensures dados == Extracted(doc)
  {
    dados := Dados(SafeText(doc.heading), SafeText(doc.price), SafeText(doc.description), City(doc.location), "", "", "");
    var params := doc.parameters;
    var i := 0;
    while i < |params|
      invariant 0 <= i <= |params|
      invariant dados == Scan(Initial(doc), params[..i])
    {
      dados := ScanLine(dados, params[i]);
      ScanExtend(Initial(doc), params, i);
      i := i + 1;
    }
    assert params[..i] == params;
  }

  /** The body of the `forEach` callback for one list item's text. */
  method ScanLine(data: Dados, txt: string) returns (updated: Dados)
    ensures updated == Step(data, txt)
  {
    updated := data;
    if Contains(txt, Label(Year)) { updated := updated.(ano := Clean(txt, Year)); }
    if Contains(txt, Label(Mileage)) { updated := updated.(km := Clean(txt, Mileage)); }
    if Contains(txt, Label(Model)) { updated := updated.(modelo := Clean(txt, Model)); }
  }

  lemma ScanExtend(d: Dados, lines: seq<string>, i: nat)
    requires i < |lines|
    ensures Scan(d, lines[..i + 1]) == Step(Scan(d, lines[..i]), lines[i])
  {
    assert lines[..i + 1][..i] == lines[..i];
  }

  /**
   * One line updates each field on its own: a field whose label the line mentions
   * takes the cleaned line, the others keep their value.
   */
  lemma StepField(d: Dados, txt: string, p: Param)
    ensures SameScraped(Step(d, txt), d)
    ensures Get(Step(d, txt), p) == if Contains(txt, Label(p)) then Clean(txt, p) else Get(d, p)
  {
  }

  /** A line that mentions none of the labels leaves the object as it was. */
  lemma StepIgnoresOtherLines(d: Dados, txt: string)
    requires forall p :: !Contains(txt, Label(p))
    ensures Step(d, txt) == d
  {
    assert !Contains(txt, Label(Year)) && !Contains(txt, Label(Mileage)) && !Contains(txt, Label(Model));
  }

  /** The scan only ever writes `ano`, `km` and `modelo`. */
  lemma {:induction false} ScanKeepsScraped(d: Dados, lines: seq<string>)
    ensures SameScraped(Scan(d, lines), d)
  {
    if lines != [] {
      ScanKeepsScraped(d, lines[..|lines| - 1]);
      StepField(Scan(d, lines[..|lines| - 1]), lines[|lines| - 1], Year);
    }
  }

  /** A field no line matches keeps its starting value. */
  lemma {:induction false} ScanUnmatched(d: Dados, lines: seq<string>, p: Param)
    requires forall j :: 0 <= j < |lines| ==> !Contains(lines[j], Label(p))
    ensures Get(Scan(d, lines), p) == Get(d, p)
  {
    if lines != [] {
      ScanUnmatched(d, lines[..|lines| - 1], p);
      StepField(Scan(d, lines[..|lines| - 1]), lines[|lines| - 1], p);
    }
  }

  /** Last match wins: the field holds the value of the last line that mentions its label. */
  lemma {:induction false} ScanLastMatchWins(d: Dados, lines: seq<string>, p: Param, k: nat)
    requires k < |lines| && Contains(lines[k], Label(p))
    requires forall j :: k < j < |lines| ==> !Contains(lines[j], Label(p))
    ensures Get(Scan(d, lines), p) == Clean(lines[k], p)
  {
    if k < |lines| - 1 {
      ScanLastMatchWins(d, lines[..|lines| - 1], p, k);
    }
    StepField(Scan(d, lines[..|lines| - 1]), lines[|lines| - 1], p);
  }

  /** Index of the last line that mentions `Label(p)`, if any. */
  function LastMatch(lines: seq<string>, p: Param): (r: Option<nat>)
    ensures r.Some? ==> r.value < |lines| && Contains(lines[r.value], Label(p))
    ensures r.Some? ==> forall j :: r.value < j < |lines| ==> !Contains(lines[j], Label(p))
    ensures r.None? ==> forall j :: 0 <= j < |lines| ==> !Contains(lines[j], Label(p))
  {
    if lines == [] then None
    else if Contains(lines[|lines| - 1], Label(p)) then Some(|lines| - 1)
    else LastMatch(lines[..|lines| - 1], p)
  }

  /**
   * The extracted object field by field: the four `safeText` fields, and each
   * parameter either `""` (no line mentions it) or the cleaned last matching line.
   */
  lemma ExtractionFields(doc: Document, p: Param)
    ensures var r := Extracted(doc);
      && r.titulo == SafeText(doc.heading) && r.preco == SafeText(doc.price)
      && r.descricao == SafeText(doc.description) && r.cidade == City(doc.location)
      && Get(r, p) == match LastMatch(doc.parameters, p)
                      case None => ""
                      case Some(k) => Clean(doc.parameters[k], p)
  {
    ScanKeepsScraped(Initial(doc), doc.parameters);
    match LastMatch(doc.parameters, p)
    case None => ScanUnmatched(Initial(doc), doc.parameters, p);
    case Some(k) => ScanLastMatchWins(Initial(doc), doc.parameters, p, k);
  }

  /** A line `"Label: value"` yields `value`, trimmed. */
  lemma CleanOfLabelled(p: Param, v: string)
    ensures Clean(Prefix(p) + v, p) == Trim(v)
  {
    ReplaceLeading(Prefix(p), v);
  }

  /** A matching line without the `"Label: "` text is kept whole, trimmed. */
  lemma CleanWithoutPrefix(txt: string, p: Param)
    requires !Contains(txt, Prefix(p))
    ensures Clean(txt, p) == Trim(txt)
  {
  }

  /** A line `"Label: value"` with a trimmed value yields exactly that value. */
  lemma CleanOfLabelledTrimmed(p: Param, v: string)
    requires Trimmed(v)
    ensures Clean(Prefix(p) + v, p) == v
  {
    CleanOfLabelled(p, v);
    TrimOfTrimmed(v);
  }

  /** A year line as the listing site shows it. */
  lemma YearLineExample()
    ensures Clean("Ano: 2020", Year) == "2020"
  {
    assert "Ano: 2020" == Prefix(Year) + "2020";
    CleanOfLabelledTrimmed(Year, "2020");
  }

  /** A mileage line keeps the spaces inside its value. */
  lemma MileageLineExample()
    ensures Clean("Quilómetros: 45 000 km", Mileage) == "45 000 km"
  {
    assert "Quilómetros: 45 000 km" == Prefix(Mileage) + "45 000 km";
    CleanOfLabelledTrimmed(Mileage, "45 000 km");
  }
}
