/**
 The back end's single HTTP entry point. A request is answered from its
 method, its `action` and `category` query parameters and, for a submitted
 review, its body: a CORS pre-flight answer, one of three read endpoints, the
 review submission, or "not found".

 The database is an immutable value holding the three tables as sequences
 of rows. Each read endpoint is a `WHERE` selection followed by an
 `ORDER BY`; since the order of rows with equal sort keys is not fixed by
 SQL, the contracts state only what every admissible answer satisfies, and
 the model computes one such answer with a stable sort. The identifier and
 creation time of an inserted review come from the database and are
 parameters here.
 */
module Api {
  import opened PyDict
  import Seqs
  import PyText

  datatype PortfolioRow = PortfolioRow(
    id: int, title: string, url: string, category: string, description: string, displayOrder: int)

  datatype ReviewRow = ReviewRow(
    id: int, clientName: string, reviewText: string, rating: int, createdAt: int, isPublished: bool)

  datatype ServiceRow = ServiceRow(
    id: int, title: string, description: string, priceFrom: int, iconName: string,
    displayOrder: int, isActive: bool)

  /** The columns the reviews endpoint returns (the publication flag is not among them). */
  datatype ReviewOut = ReviewOut(
    id: int, clientName: string, reviewText: string, rating: int, createdAt: int)

  /** The columns the services endpoint returns (the active flag is not among them). */
  datatype ServiceOut = ServiceOut(
    id: int, title: string, description: string, priceFrom: int, iconName: string, displayOrder: int)

  datatype Db = Db(portfolio: seq<PortfolioRow>, reviews: seq<ReviewRow>, services: seq<ServiceRow>)

  /** The fields of a decoded review submission; a missing body reads as an empty object. */
  datatype ReviewFields = ReviewFields(clientName: Entry<string>, reviewText: Entry<string>, rating: Entry<int>)

  /** An incoming event. Absent query parameters read as an empty map. */
  datatype Request = Request(httpMethod: Entry<string>, query: map<string, string>, body: ReviewFields)

  /**
   `Preflight`: allow any origin, the methods GET, POST and OPTIONS, and the
   Content-Type header. `Json`: a JSON content type and any origin.
   */
  datatype Headers = Preflight | Json

  datatype ErrorKind = NameAndTextRequired | EndpointNotFound

  datatype Body =
    | Empty
    | Images(images: seq<PortfolioRow>)
    | Reviews(reviews: seq<ReviewOut>)
    | Services(services: seq<ServiceOut>)
    | Error(kind: ErrorKind)
    | Submitted(id: int)

  datatype Response = Response(statusCode: int, headers: Headers, body: Body)

  /** The answer together with the database as the request leaves it. */
  datatype Outcome = Outcome(response: Response, db: Db)

  // ---------------------------------------------------------------------
  // Request fields and their defaults

  /** The HTTP method; an event without one counts as a GET. */
  function MethodOf(req: Request): (m: string)
    ensures req.httpMethod.Absent? ==> m == "GET"
    ensures req.httpMethod.Present? ==> m == req.httpMethod.value
  {
    DictGet(req.httpMethod, "GET")
  }

  /** A query parameter, or `default` when the request does not carry it. */
  function Param(query: map<string, string>, name: string, default: string): (v: string)
    ensures name in query ==> v == query[name]
    ensures name !in query ==> v == default
  {
    if name in query then query[name] else default
  }

  /** The requested action; a request without one asks for the portfolio. */
  function ActionOf(req: Request): (a: string)
    ensures "action" !in req.query ==> a == "portfolio"
    ensures "action" in req.query ==> a == req.query["action"]
  {
    Param(req.query, "action", "portfolio")
  }

  /** The requested portfolio category; a request without one asks for every category. */
  function CategoryOf(req: Request): (c: string)
    ensures "category" !in req.query ==> c == "all"
    ensures "category" in req.query ==> c == req.query["category"]
  {
    Param(req.query, "category", "all")
  }

  /** The actions answered whatever the method (OPTIONS aside). */
  predicate IsReadAction(action: string)
  {
    action == "portfolio" || action == "reviews" || action == "services"
  }

  // ---------------------------------------------------------------------
  // The three queries

  /** Whether a portfolio row is selected for `category`. */
  predicate InCategory(category: string, row: PortfolioRow)
  {
    category == "all" || row.category == category
  }

  function DisplayOrder(row: PortfolioRow): int { row.displayOrder }

  /** Newest first: ascending order of this key is descending order of creation time. */
  function NewestFirst(r: ReviewOut): int { -r.createdAt }

  function ServiceOrder(s: ServiceOut): int { s.displayOrder }

  function ToReviewOut(r: ReviewRow): ReviewOut
  {
    ReviewOut(r.id, r.clientName, r.reviewText, r.rating, r.createdAt)
  }

  function ToServiceOut(s: ServiceRow): ServiceOut
  {
    ServiceOut(s.id, s.title, s.description, s.priceFrom, s.iconName, s.displayOrder)
  }

  /** The rows a portfolio request for `category` selects, before ordering. */
  function PortfolioSelection(rows: seq<PortfolioRow>, category: string): seq<PortfolioRow>
  {
    Seqs.Filter(rows, (row: PortfolioRow) => InCategory(category, row))
  }

  /** The published reviews, projected to the returned columns, before ordering. */
  function ReviewSelection(rows: seq<ReviewRow>): seq<ReviewOut>
  {
    Seqs.Map(Seqs.Filter(rows, (r: ReviewRow) => r.isPublished), ToReviewOut)
  }

  /** The active services, projected to the returned columns, before ordering. */
  function ServiceSelection(rows: seq<ServiceRow>): seq<ServiceOut>
  {
    Seqs.Map(Seqs.Filter(rows, (s: ServiceRow) => s.isActive), ToServiceOut)
  }

  /** Portfolio rows of `category` (every row for `"all"`), by ascending display order. */
  function PortfolioQuery(rows: seq<PortfolioRow>, category: string): (r: seq<PortfolioRow>)
    ensures Seqs.SortedPermutation(r, PortfolioSelection(rows, category), DisplayOrder)
  {
    Seqs.SortBy(PortfolioSelection(rows, category), DisplayOrder)
  }

  /** Published reviews, newest first. */
  function ReviewsQuery(rows: seq<ReviewRow>): (r: seq<ReviewOut>)
    ensures Seqs.SortedPermutation(r, ReviewSelection(rows), NewestFirst)
  {
    Seqs.SortBy(ReviewSelection(rows), NewestFirst)
  }

  /** Active services, by ascending display order. */
  function ServicesQuery(rows: seq<ServiceRow>): (r: seq<ServiceOut>)
    ensures Seqs.SortedPermutation(r, ServiceSelection(rows), ServiceOrder)
  {
    Seqs.SortBy(ServiceSelection(rows), ServiceOrder)
  }

  // ---------------------------------------------------------------------
  // Review submission

  /** The review a valid submission stores: trimmed name and text, rating 5 by default, unpublished. */
  function NewReview(fields: ReviewFields, id: int, createdAt: int): ReviewRow
  {
    ReviewRow(id, PyText.Strip(DictGet(fields.clientName, "")), PyText.Strip(DictGet(fields.reviewText, "")),
              DictGet(fields.rating, 5), createdAt, false)
  }

  /** A submission is refused when the name or the text is missing or only whitespace. */
  predicate Blank(field: Entry<string>)
  {
    PyText.Strip(DictGet(field, "")) == ""
  }

  /** Stores a review for moderation, or refuses it without touching the database. */
  function SubmitReview(db: Db, fields: ReviewFields, newId: int, createdAt: int): (o: Outcome)
    ensures o.response.headers == Json
    ensures o.response.statusCode == 400 <==> Blank(fields.clientName) || Blank(fields.reviewText)
    ensures o.response.statusCode == 400 ==> o.db == db && o.response.body == Error(NameAndTextRequired)
    ensures o.response.statusCode != 400 ==> o.response == Response(201, Json, Submitted(newId))
    ensures o.response.statusCode != 400 ==> o.db == db.(reviews := db.reviews + [NewReview(fields, newId, createdAt)])
  {
    var name := PyText.Strip(DictGet(fields.clientName, ""));
    var text := PyText.Strip(DictGet(fields.reviewText, ""));
    if name == "" || text == "" then
      Outcome(Response(400, Json, Error(NameAndTextRequired)), db)
    else
      var row := ReviewRow(newId, name, text, DictGet(fields.rating, 5), createdAt, false);
      Outcome(Response(201, Json, Submitted(newId)), db.(reviews := db.reviews + [row]))
  }

  // ---------------------------------------------------------------------
  // Dispatch

  /** The handler. `newId` and `createdAt` are what the database assigns to an inserted review. */
  function Handle(req: Request, db: Db, newId: int, createdAt: int): (o: Outcome)
    ensures MethodOf(req) == "OPTIONS" ==> o == Outcome(Response(200, Preflight, Empty), db)
    ensures MethodOf(req) != "OPTIONS" ==> o.response.headers == Json
    ensures o.db != db ==> MethodOf(req) == "POST" && ActionOf(req) == "submit_review"
                           && o.response.statusCode == 201
    ensures o.response.statusCode == 404 <==>
              MethodOf(req) != "OPTIONS" && !IsReadAction(ActionOf(req))
              && !(MethodOf(req) == "POST" && ActionOf(req) == "submit_review")
    ensures o.response.statusCode == 404 ==> o.db == db && o.response.body == Error(EndpointNotFound)
    ensures MethodOf(req) != "OPTIONS" && IsReadAction(ActionOf(req)) ==>
              o.db == db && o.response.statusCode == 200
    ensures MethodOf(req) != "OPTIONS" && ActionOf(req) == "portfolio" ==>
              o.response.body.Images?
              && Seqs.SortedPermutation(o.response.body.images,
                                        PortfolioSelection(db.portfolio, CategoryOf(req)), DisplayOrder)
    ensures MethodOf(req) != "OPTIONS" && ActionOf(req) == "reviews" ==>
              o.response.body.Reviews?
              && Seqs.SortedPermutation(o.response.body.reviews, ReviewSelection(db.reviews), NewestFirst)
    ensures MethodOf(req) != "OPTIONS" && ActionOf(req) == "services" ==>
              o.response.body.Services?
              && Seqs.SortedPermutation(o.response.body.services, ServiceSelection(db.services), ServiceOrder)
    ensures MethodOf(req) == "POST" && ActionOf(req) == "submit_review" ==>
              o == SubmitReview(db, req.body, newId, createdAt)
  {
    var verb := MethodOf(req);
    if verb == "OPTIONS" then
      Outcome(Response(200, Preflight, Empty), db)
    else
      var action := ActionOf(req);
      if action == "portfolio" then
        Outcome(Response(200, Json, Images(PortfolioQuery(db.portfolio, CategoryOf(req)))), db)
      else if action == "reviews" then
        Outcome(Response(200, Json, Reviews(ReviewsQuery(db.reviews))), db)
      else if action == "services" then
        Outcome(Response(200, Json, Services(ServicesQuery(db.services))), db)
      else if verb == "POST" && action == "submit_review" then
        SubmitReview(db, req.body, newId, createdAt)
      else
        Outcome(Response(404, Json, Error(EndpointNotFound)), db)
  }

  // ---------------------------------------------------------------------
  // Properties

  /** A pre-flight request is answered the same way whatever its query parameters and body. */
  lemma PreflightIgnoresRest(req1: Request, req2: Request, db: Db, id1: int, id2: int, t1: int, t2: int)
    requires MethodOf(req1) == "OPTIONS" && MethodOf(req2) == "OPTIONS"
    ensures Handle(req1, db, id1, t1) == Handle(req2, db, id2, t2)
  {
  }

  /** A request without parameters is the portfolio request for every category, and a missing method is GET. */
  lemma MissingParametersDefault(db: Db, body: ReviewFields, id: int, t: int)
    ensures Handle(Request(Absent, map[], body), db, id, t)
         == Handle(Request(Present("GET"), map["action" := "portfolio", "category" := "all"], body), db, id, t)
  {
  }

  /** The read endpoints do not look at the method: any method but OPTIONS gets the GET answer. */
  lemma ReadsIgnoreMethod(req: Request, db: Db, id: int, t: int)
    requires MethodOf(req) != "OPTIONS" && IsReadAction(ActionOf(req))
    ensures Handle(req, db, id, t) == Handle(req.(httpMethod := Present("GET")), db, id, t)
  {
  }

  /** A review submitted with any method but POST (or OPTIONS) is "not found" and stores nothing. */
  lemma SubmitNeedsPost(req: Request, db: Db, id: int, t: int)
    requires ActionOf(req) == "submit_review" && MethodOf(req) != "POST" && MethodOf(req) != "OPTIONS"
    ensures Handle(req, db, id, t) == Outcome(Response(404, Json, Error(EndpointNotFound)), db)
  {
  }

  /** A missing name or text is refused exactly like one made of whitespace only. */
  lemma BlankMeansWhitespaceOnly(field: Entry<string>)
    ensures Blank(field) <==> field.Absent? || PyText.AllSpace(field.value)
  {
  }

  /** A posted review whose name or text is blank gets 400 and stores nothing. */
  lemma SubmitBlankRefused(req: Request, db: Db, id: int, t: int)
    requires MethodOf(req) == "POST" && ActionOf(req) == "submit_review"
    requires Blank(req.body.clientName) || Blank(req.body.reviewText)
    ensures Handle(req, db, id, t) == Outcome(Response(400, Json, Error(NameAndTextRequired)), db)
  {
  }

  /**
   A posted review with a non-blank name and text is stored with the trimmed
   name and text, rating 5 unless given, unpublished, and acknowledged with
   201 and its identifier.
   */
  lemma SubmitStores(req: Request, db: Db, id: int, t: int)
    requires MethodOf(req) == "POST" && ActionOf(req) == "submit_review"
    requires !Blank(req.body.clientName) && !Blank(req.body.reviewText)
    ensures Handle(req, db, id, t).response == Response(201, Json, Submitted(id))
    ensures Handle(req, db, id, t).db.reviews == db.reviews + [NewReview(req.body, id, t)]
    ensures NewReview(req.body, id, t).clientName == PyText.Strip(req.body.clientName.value)
    ensures NewReview(req.body, id, t).reviewText == PyText.Strip(req.body.reviewText.value)
    ensures req.body.rating.Absent? ==> NewReview(req.body, id, t).rating == 5
    ensures !NewReview(req.body, id, t).isPublished
    ensures Handle(req, db, id, t).db.portfolio == db.portfolio
    ensures Handle(req, db, id, t).db.services == db.services
  {
  }

  /** A stored review is held for moderation: the reviews endpoint answers as before the submission. */
  lemma SubmittedReviewHidden(req: Request, db: Db, id: int, t: int)
    requires MethodOf(req) == "POST" && ActionOf(req) == "submit_review"
    ensures ReviewsQuery(Handle(req, db, id, t).db.reviews) == ReviewsQuery(db.reviews)
  {
    var o := Handle(req, db, id, t);
    if o.db != db {
      Seqs.FilterAppendRejected(db.reviews, NewReview(req.body, id, t), (r: ReviewRow) => r.isPublished);
    }
  }

  /**
   The portfolio endpoint returns exactly the rows of the requested category
   (every row for `"all"`), each as many times as the table holds it.
   */
  lemma PortfolioRowsExactly(db: Db, category: string, row: PortfolioRow)
    ensures multiset(PortfolioQuery(db.portfolio, category))[row]
         == if InCategory(category, row) then multiset(db.portfolio)[row] else 0
  {
    Seqs.FilterMultiset(db.portfolio, (r: PortfolioRow) => InCategory(category, r));
  }

  /** The reviews endpoint returns every published review, and nothing that is not a published review. */
  lemma ReviewsArePublished(db: Db)
    ensures forall r :: r in db.reviews && r.isPublished ==> ToReviewOut(r) in ReviewsQuery(db.reviews)
    ensures forall o :: o in ReviewsQuery(db.reviews) ==>
              exists r :: r in db.reviews && r.isPublished && ToReviewOut(r) == o
  {
    Seqs.SelectedProjection(db.reviews, (r: ReviewRow) => r.isPublished, ToReviewOut,
                            ReviewsQuery(db.reviews), NewestFirst);
  }

  /**
   The services endpoint returns every active service and nothing that is not
   an active service, one entry per active row.
   */
  lemma ServicesAreActive(db: Db)
    ensures forall r :: r in db.services && r.isActive ==> ToServiceOut(r) in ServicesQuery(db.services)
    ensures forall o :: o in ServicesQuery(db.services) ==>
              exists r :: r in db.services && r.isActive && ToServiceOut(r) == o
    ensures |ServicesQuery(db.services)| == Seqs.CountWhere(db.services, (r: ServiceRow) => r.isActive)
  {
    var active := (r: ServiceRow) => r.isActive;
    Seqs.SelectedProjection(db.services, active, ToServiceOut, ServicesQuery(db.services), ServiceOrder);
    Seqs.FilterLength(db.services, active);
    assert |ServicesQuery(db.services)| == |multiset(ServicesQuery(db.services))|;
  }

  /**
   Any two admissible answers to one `ORDER BY` query agree on the sort key
   at every position; they can differ only among rows with equal keys.
   */
  lemma AnswersAgreeOnKeys(a: seq<PortfolioRow>, b: seq<PortfolioRow>, rows: seq<PortfolioRow>, category: string)
    requires Seqs.SortedPermutation(a, PortfolioSelection(rows, category), DisplayOrder)
    requires Seqs.SortedPermutation(b, PortfolioSelection(rows, category), DisplayOrder)
    ensures |a| == |b|
    ensures forall i :: 0 <= i < |a| ==> a[i].displayOrder == b[i].displayOrder
  {
    Seqs.SortedPermutationSameKeys(a, b, DisplayOrder);
  }
}
