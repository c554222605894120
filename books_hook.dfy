/**
 * The subject hooks of the books endpoints: `book(data)` makes a synthetic
 * book from a partial record (or from a function of the request's user)
 * over a default record, and `bookId()` fetches the book the route's `id`
 * names.
 */
module BooksHook {
  import opened Base
  import opened Entities
  import BooksService

  /** A partial book with its state required; `None` is an absent field. */
  datatype PartialBook = PartialBook(
    state: BookState,
    id: Option<Id>,
    title: Option<string>,
    description: Option<string>,
    publishedDate: Option<Option<Date>>,
    userId: Option<Option<Id>>,
    imageFile: Option<Option<string>>,
    bookFile: Option<Option<string>>,
    tags: Option<set<Tag>>)

  /** The id of every synthetic book that does not supply one. */
  const DefaultId := "invalid"

  /** The default record with the supplied fields spread over it. */
  function Synthesize(p: PartialBook): Book {
    Book(
      id := p.id.GetOr(DefaultId),
      title := p.title.GetOr(""),
      description := p.description.GetOr(""),
      publishedDate := p.publishedDate.GetOr(None),
      userId := p.userId.GetOr(None),
      state := p.state,
      imageFile := p.imageFile.GetOr(None),
      bookFile := p.bookFile.GetOr(None),
      tags := p.tags.GetOr({}))
  }

  /** A partial book that supplies only the state. */
  function OnlyState(s: BookState): PartialBook {
    PartialBook(s, None, None, None, None, None, None, None, None)
  }

  /** A partial book that supplies every field of `b`. */
  function Full(b: Book): PartialBook {
    PartialBook(b.state, Some(b.id), Some(b.title), Some(b.description), Some(b.publishedDate),
      Some(b.userId), Some(b.imageFile), Some(b.bookFile), Some(b.tags))
  }

  /** The hook's `data`: a partial book, or a function of the request's user. */
  datatype BookData = Fixed(partial: PartialBook) | OfUser(f: User -> PartialBook)

  /** The data ready for spreading. The function form reads the request's
      user, so without one it fails with a TypeError (a server fault). */
  function ReadyData(data: BookData, user: Option<User>): (r: Result<PartialBook>)
    ensures data.Fixed? ==> r == Ok(data.partial)
    ensures data.OfUser? && user.Some? ==> r == Ok(data.f(user.value))
    ensures data.OfUser? && user.None? ==> r == Err(Internal)
  {
    match data
    case Fixed(p) => Ok(p)
    case OfUser(f) => if user.Some? then Ok(f(user.value)) else Err(Internal)
  }

  /** The two kinds of subject hook. */
  datatype SubjectSource = Synthetic(data: BookData) | RouteId

  /** The subject a hook yields for a request. */
  function Subject(src: SubjectSource, books: map<Id, Book>, user: Option<User>, routeId: Id): (r: Result<Book>)
    ensures src.RouteId? ==> r == BooksService.FindById(books, routeId)
    ensures src.Synthetic? && ReadyData(src.data, user).Ok? ==> r == Ok(Synthesize(ReadyData(src.data, user).value))
    ensures src.Synthetic? && ReadyData(src.data, user).Err? ==> r == Err(Internal)
  {
    match src
    case RouteId => BooksService.FindById(books, routeId)
    case Synthetic(data) =>
      match ReadyData(data, user)
      case Err(e) => Err(e)
      case Ok(p) => Ok(Synthesize(p))
  }

  /** The synthetic subject always carries the supplied state; every field
      supplied overrides the default, every field absent takes it. */
  lemma SynthesizeFields(p: PartialBook)
    ensures Synthesize(p).state == p.state
    ensures Synthesize(p).id == (if p.id.Some? then p.id.value else "invalid")
    ensures Synthesize(p).title == (if p.title.Some? then p.title.value else "")
    ensures Synthesize(p).description == (if p.description.Some? then p.description.value else "")
    ensures Synthesize(p).publishedDate == (if p.publishedDate.Some? then p.publishedDate.value else None)
    ensures Synthesize(p).userId == (if p.userId.Some? then p.userId.value else None)
    ensures Synthesize(p).imageFile == (if p.imageFile.Some? then p.imageFile.value else None)
    ensures Synthesize(p).bookFile == (if p.bookFile.Some? then p.bookFile.value else None)
    ensures Synthesize(p).tags == (if p.tags.Some? then p.tags.value else {})
  {
  }

  /** Spreading a complete record gives that record back; spreading only a
      state gives the default record in that state. */
  lemma SynthesizeRoundTrip(b: Book, s: BookState)
    ensures Synthesize(Full(b)) == b
    ensures Synthesize(OnlyState(s)) == Book("invalid", "", "", None, None, s, None, None, {})
  {
  }

  /** A synthetic subject never has the shape of a stored book's id unless
      the data supplies one. */
  lemma SyntheticIdInvalid(p: PartialBook)
    requires p.id.None?
    ensures !ValidId(Synthesize(p).id)
  {
  }

  /** `bookId()` on an id that is a UUID but has no record yields NotFound;
      on a malformed id, BadRequest. */
  lemma RouteIdMissing(books: map<Id, Book>, user: Option<User>, routeId: Id)
    requires routeId !in books
    ensures Subject(RouteId, books, user, routeId) == Err(if ValidId(routeId) then NotFound else BadRequest)
  {
  }
}
