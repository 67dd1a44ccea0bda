/**
 * The crawler's request handler: dispatch on the request's label. A LIST page
 * enqueues its listing cards' links as DETAIL requests; a DETAIL page yields one
 * record. Browser reads are inputs (a `Page`), and what the handler does is an
 * `Outcome` value.
 */
module Handler {

  import opened Options
  import opened Text
  import opened Extraction
  import opened Phone

  /** The crawler's `maxRequestRetries` option. The retrying itself happens inside the crawler library. */
  const MaxRequestRetries := 2

  const ListLabel := "LIST"
  const DetailLabel := "DETAIL"

  /** A crawl request; `tag` is its label (`label` is a Dafny keyword). */
  datatype Request = Request(url: string, tag: string)

  /** Everything the handler learns from the browser for one request. */
  datatype Page = Page(
    cardsAppeared: bool,     // a listing card showed up within the card wait
    cardLinks: seq<string>,  // the absolute URLs of the anchors inside listing cards, in page order
    screenshotThrows: bool,  // the diagnostic screenshot taken after a failed card wait throws
    headingAppeared: bool,   // an `h1` showed up within the heading wait
    phone: PhoneButton,      // the show-phone interaction
    document: Document)      // what the in-page extraction reads

  /** Why the handler throws. */
  datatype Failure = HeadingTimeout | ScreenshotFailed

  /** What one run of the handler amounts to. */
  datatype Outcome =
    | Enqueued(requests: seq<Request>)     // links handed to the request queue
    | Emitted(record: map<string, string>) // one record pushed to the dataset
    | Returned                             // returned without enqueueing or emitting
    | Failed(failure: Failure)             // threw, so the crawler sees a failed attempt

  /** The keys of the extracted object. */
  const ExtractedKeys: set<string> := {"titulo", "preco", "descricao", "cidade", "ano", "km", "modelo"}

  /** The keys of a pushed record. */
  const RecordKeys: set<string> := {"url", "telefone"} + ExtractedKeys

  /** The extracted object as the key/value pairs it contributes to the record. */
  function Entries(d: Dados): (m: map<string, string>)
    ensures m.Keys == ExtractedKeys
    ensures "url" !in m && "telefone" !in m
  {
    map["titulo" := d.titulo, "preco" := d.preco, "descricao" := d.descricao, "cidade" := d.cidade,
        "ano" := d.ano, "km" := d.km, "modelo" := d.modelo]
  }

  /**
   * `{url, telefone, ...dados}`: the spread comes last, so it would win on a shared
   * key; it has none, so `url` and `telefone` survive and every extracted field is kept.
   */
  function Assemble(url: string, telefone: string, d: Dados): (r: map<string, string>)
    ensures r.Keys == RecordKeys
    ensures r["url"] == url && r["telefone"] == telefone
    ensures forall k :: k in ExtractedKeys ==> r[k] == Entries(d)[k]
  {
    map["url" := url, "telefone" := telefone] + Entries(d)
  }

  /** Record assembly keeps every field under its own name. */
  lemma AssembleFields(url: string, telefone: string, d: Dados)
    ensures var r := Assemble(url, telefone, d);
      && r["url"] == url && r["telefone"] == telefone
      && r["titulo"] == d.titulo && r["preco"] == d.preco && r["descricao"] == d.descricao
      && r["cidade"] == d.cidade && r["ano"] == d.ano && r["km"] == d.km && r["modelo"] == d.modelo
  {
  }

  /** The requests `enqueueLinks` adds for the card links: one DETAIL request per link, in order. */
  function DetailRequests(links: seq<string>): (r: seq<Request>)
    ensures |r| == |links|
    ensures forall i :: 0 <= i < |links| ==> r[i].url == links[i] && r[i].tag == DetailLabel
  {
    if links == [] then [] else [Request(links[0], DetailLabel)] + DetailRequests(links[1..])
  }

  /** What the handler does for `request` on `page`. */
  function Dispatch(request: Request, page: Page): (r: Outcome)
    ensures r.Enqueued? <==> request.tag == ListLabel && page.cardsAppeared
    ensures r.Enqueued? ==> r.requests == DetailRequests(page.cardLinks)
    ensures r.Emitted? <==> request.tag == DetailLabel && page.headingAppeared
    ensures r.Emitted? ==> r.record.Keys == RecordKeys && r.record["url"] == request.url
    ensures r.Emitted? ==> r.record["telefone"] == PhoneValue(page.phone)
    ensures r.Emitted? ==> forall k :: k in ExtractedKeys ==> r.record[k] == Entries(Extracted(page.document))[k]
    ensures r.Failed? <==>
      || (request.tag == ListLabel && !page.cardsAppeared && page.screenshotThrows)
      || (request.tag == DetailLabel && !page.headingAppeared)
    ensures r.Failed? ==> (r.failure == HeadingTimeout <==> request.tag == DetailLabel)
    ensures request.tag != ListLabel && request.tag != DetailLabel ==> r == Returned
  {
    if request.tag == ListLabel then
      if !page.cardsAppeared then
        if page.screenshotThrows then Failed(ScreenshotFailed) else Returned
      else Enqueued(DetailRequests(page.cardLinks))
    else if request.tag == DetailLabel then
      if !page.headingAppeared then Failed(HeadingTimeout)
      else Emitted(Assemble(request.url, PhoneValue(page.phone), Extracted(page.document)))
    else Returned
  }

  /**
   * The handler as it runs: the label decides. The cookie-banner step swallows its
   * own errors, and `page` already describes the page as it stands after that step.
   */
  method Handle(request: Request, page: Page) returns (outcome: Outcome)
    ensures outcome == Dispatch(request, page)
  {
    if request.tag == ListLabel {
      if !page.cardsAppeared {
        if page.screenshotThrows {
          return Failed(ScreenshotFailed);
        }
        return Returned;
      }
      outcome := Enqueued(DetailRequests(page.cardLinks));
    } else if request.tag == DetailLabel {
      if !page.headingAppeared {
        return Failed(HeadingTimeout);
      }
      var telefone := RevealPhone(page.phone);
      var dados := Extract(page.document);
      outcome := Emitted(Assemble(request.url, telefone, dados));
    } else {
      outcome := Returned;
    }
  }

  /**
   * The phone never stops a record: whatever the show-phone interaction meets, a
   * DETAIL page whose heading appeared emits a record, and only `telefone` differs.
   */
  lemma PhoneNeverBlocksRecord(request: Request, page: Page, other: PhoneButton)
    requires Dispatch(request, page).Emitted?
    ensures var r := Dispatch(request, page.(phone := other));
      && r.Emitted? && r.record["url"] == request.url && r.record["telefone"] == PhoneValue(other)
      && forall k :: k in ExtractedKeys ==> r.record[k] == Dispatch(request, page).record[k]
  {
  }

  /** A listing page with three cards enqueues three DETAIL requests and emits nothing. */
  lemma ListPageScenario(url: string, page: Page, a: string, b: string, c: string)
    requires page.cardsAppeared && page.cardLinks == [a, b, c]
    ensures Dispatch(Request(url, ListLabel), page)
      == Enqueued([Request(a, DetailLabel), Request(b, DetailLabel), Request(c, DetailLabel)])
  {
  }

  /** A listing page whose card wait timed out: nothing enqueued, nothing emitted, a normal return. */
  lemma ListPageWithoutCards(url: string, page: Page)
    requires !page.cardsAppeared && !page.screenshotThrows
    ensures Dispatch(Request(url, ListLabel), page) == Returned
  {
  }

  /** A main-parameters list with one `"Label: value"` line per parameter, in the site's order. */
  function LabelledLines(year: string, km: string, model: string): seq<string>
  {
    [Prefix(Year) + year, Prefix(Mileage) + km, Prefix(Model) + model]
  }

  /**
   * Values for such a list: each is trimmed, and no line mentions the label of an
   * earlier line, so no later line overwrites an earlier field.
   */
  predicate LabelledValues(year: string, km: string, model: string)
  {
    && Trimmed(year) && Trimmed(km) && Trimmed(model)
    && !Contains(Prefix(Mileage) + km, Label(Year))
    && !Contains(Prefix(Model) + model, Label(Year))
    && !Contains(Prefix(Model) + model, Label(Mileage))
  }

  /** Such a list fills each field with its own value. */
  lemma ThreeLabelledLines(d: Dados, year: string, km: string, model: string)
    requires LabelledValues(year, km, model)
    ensures var r := Scan(d, LabelledLines(year, km, model));
      r.ano == year && r.km == km && r.modelo == model
  {
    YearFromLines(d, year, km, model);
    MileageFromLines(d, year, km, model);
    ModelFromLines(d, year, km, model);
  }

  /** The year line is first: the year survives when neither later line mentions `Ano`. */
  lemma YearFromLines(d: Dados, year: string, km: string, model: string)
    requires Trimmed(year)
    requires !Contains(Prefix(Mileage) + km, Label(Year)) && !Contains(Prefix(Model) + model, Label(Year))
    ensures Scan(d, LabelledLines(year, km, model)).ano == year
  {
    LabelledLine(Year, year);
    ScanLastMatchWins(d, LabelledLines(year, km, model), Year, 0);
  }

  /** The mileage survives when the model line does not mention `Quilómetros`. */
  lemma MileageFromLines(d: Dados, year: string, km: string, model: string)
    requires Trimmed(km) && !Contains(Prefix(Model) + model, Label(Mileage))
    ensures Scan(d, LabelledLines(year, km, model)).km == km
  {
    LabelledLine(Mileage, km);
    ScanLastMatchWins(d, LabelledLines(year, km, model), Mileage, 1);
  }

  /** The model line is last, so nothing overwrites it. */
  lemma ModelFromLines(d: Dados, year: string, km: string, model: string)
    requires Trimmed(model)
    ensures Scan(d, LabelledLines(year, km, model)).modelo == model
  {
    LabelledLine(Model, model);
    ScanLastMatchWins(d, LabelledLines(year, km, model), Model, 2);
  }

  /** A labelled line mentions no other label whose first letter appears nowhere in it. */
  lemma LineMisses(p: Param, v: string, q: Param)
    requires Label(q)[0] !in Prefix(p) && Label(q)[0] !in v
    ensures !Contains(Prefix(p) + v, Label(q))
  {
    NotContainsFirstChar(Prefix(p) + v, Label(q));
  }

  /** A line `"Label: value"` mentions the label and yields its (trimmed) value. */
  lemma LabelledLine(p: Param, v: string)
    requires Trimmed(v)
    ensures Contains(Prefix(p) + v, Label(p)) && Clean(Prefix(p) + v, p) == v
  {
    assert (Prefix(p) + v)[..|Label(p)|] == Label(p);
    ContainsAt(Prefix(p) + v, Label(p), 0);
    CleanOfLabelledTrimmed(p, v);
  }

  /** What the handler reads from a well-formed detail page. */
  lemma WellFormedExtraction(doc: Document, title: string, price: string, city: string, rest: string,
                             year: string, km: string, model: string)
    requires doc == Document(Some(Element(Some(title))), Some(Element(Some(price))), None,
                             Some(Element(Some(city + "-" + rest))), LabelledLines(year, km, model))
    requires Trimmed(title) && Trimmed(price) && Trimmed(city) && '-' !in city
    requires LabelledValues(year, km, model)
    ensures Extracted(doc) == Dados(title, price, "", city, year, km, model)
  {
    WellFormedScraped(doc, title, price, city, rest);
    ThreeLabelledLines(Initial(doc), year, km, model);
    ScanKeepsScraped(Initial(doc), doc.parameters);
  }

  lemma WellFormedScraped(doc: Document, title: string, price: string, city: string, rest: string)
    requires doc.heading == Some(Element(Some(title))) && doc.price == Some(Element(Some(price)))
    requires doc.description == None && doc.location == Some(Element(Some(city + "-" + rest)))
    requires Trimmed(title) && Trimmed(price) && Trimmed(city) && '-' !in city
    ensures Initial(doc) == Dados(title, price, "", city, "", "", "")
  {
    SafeTextOfTrimmed(title);
    SafeTextOfTrimmed(price);
    CityOfLocation(city, rest);
  }

  /**
   * A detail page without a show-phone button still yields its record, whatever
   * the page holds: the request's URL, the not-found sentinel and the extracted fields.
   */
  lemma DetailPageWithoutPhone(url: string, page: Page)
    requires page.headingAppeared && page.phone.lookup == Resolved(false)
    ensures var r := Dispatch(Request(url, DetailLabel), page);
      && r.Emitted? && r.record["url"] == url && r.record["telefone"] == ButtonNotFound
      && forall k :: k in ExtractedKeys ==> r.record[k] == Entries(Extracted(page.document))[k]
  {
  }

  /**
   * A well-formed detail page without a show-phone button: trimmed title and price,
   * no description, a `city-rest` location and labelled year, mileage and model lines.
   */
  lemma WellFormedDetailPageWithoutPhone(url: string, page: Page, title: string, price: string, city: string,
                                         rest: string, year: string, km: string, model: string)
    requires page.headingAppeared && page.phone.lookup == Resolved(false)
    requires page.document == Document(Some(Element(Some(title))), Some(Element(Some(price))), None,
                                       Some(Element(Some(city + "-" + rest))), LabelledLines(year, km, model))
    requires Trimmed(title) && Trimmed(price) && Trimmed(city) && '-' !in city
    requires LabelledValues(year, km, model)
    ensures var r := Dispatch(Request(url, DetailLabel), page);
      && r.Emitted? && r.record["url"] == url && r.record["telefone"] == ButtonNotFound
      && r.record["titulo"] == title && r.record["preco"] == price
      && r.record["descricao"] == "" && r.record["cidade"] == city
      && r.record["ano"] == year && r.record["km"] == km && r.record["modelo"] == model
  {
    WellFormedExtraction(page.document, title, price, city, rest, year, km, model);
    assert Dispatch(Request(url, DetailLabel), page)
      == Emitted(Assemble(url, PhoneValue(page.phone), Extracted(page.document)));
    AssembleFields(url, PhoneValue(page.phone), Extracted(page.document));
  }

  /** A used Renault Clio's detail page, without a show-phone button. */
  lemma ClioDetailPage(url: string, page: Page)
    requires page.headingAppeared && page.phone.lookup == Resolved(false)
    requires page.document == Document(Some(Element(Some("Renault Clio 2020"))), Some(Element(Some("8 500 €"))), None,
                                       Some(Element(Some("Aveiro-Hoje"))),
                                       ["Ano: 2020", "Quilómetros: 60000 km", "Modelo: Clio"])
    ensures var r := Dispatch(Request(url, DetailLabel), page);
      && r.Emitted? && r.record["telefone"] == ButtonNotFound
      && r.record["titulo"] == "Renault Clio 2020" && r.record["preco"] == "8 500 €" && r.record["cidade"] == "Aveiro"
      && r.record["ano"] == "2020" && r.record["km"] == "60000 km" && r.record["modelo"] == "Clio"
  {
    ClioExtraction(page.document);
    assert Dispatch(Request(url, DetailLabel), page)
      == Emitted(Assemble(url, PhoneValue(page.phone), Extracted(page.document)));
    AssembleFields(url, PhoneValue(page.phone), Extracted(page.document));
  }

  lemma ClioExtraction(doc: Document)
    requires doc == Document(Some(Element(Some("Renault Clio 2020"))), Some(Element(Some("8 500 €"))), None,
                             Some(Element(Some("Aveiro-Hoje"))),
                             ["Ano: 2020", "Quilómetros: 60000 km", "Modelo: Clio"])
    ensures Extracted(doc) == Dados("Renault Clio 2020", "8 500 €", "", "Aveiro", "2020", "60000 km", "Clio")
  {
    assert "Aveiro-Hoje" == "Aveiro" + "-" + "Hoje";
    WellFormedScraped(doc, "Renault Clio 2020", "8 500 €", "Aveiro", "Hoje");
    ClioParameters(Initial(doc));
    ScanKeepsScraped(Initial(doc), doc.parameters);
  }

  lemma ClioParameters(d: Dados)
    ensures var r := Scan(d, ["Ano: 2020", "Quilómetros: 60000 km", "Modelo: Clio"]);
      r.ano == "2020" && r.km == "60000 km" && r.modelo == "Clio"
  {
    ClioLines();
    ClioValues();
    ThreeLabelledLines(d, "2020", "60000 km", "Clio");
  }

  lemma ClioLines()
    ensures ["Ano: 2020", "Quilómetros: 60000 km", "Modelo: Clio"] == LabelledLines("2020", "60000 km", "Clio")
  {
    assert Prefix(Year) + "2020" == "Ano: 2020";
    assert Prefix(Mileage) + "60000 km" == "Quilómetros: 60000 km";
    assert Prefix(Model) + "Clio" == "Modelo: Clio";
  }

  lemma ClioValues()
    ensures LabelledValues("2020", "60000 km", "Clio")
  {
    LineMisses(Mileage, "60000 km", Year);
    LineMisses(Model, "Clio", Year);
    LineMisses(Model, "Clio", Mileage);
  }
}
