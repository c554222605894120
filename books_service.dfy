/**
 * The book catalogue service: the lookup by id, the lifecycle of a book,
 * the tag difference an update applies, and the Prisma store the service
 * reads and writes, as a class whose methods change it.
 */
module BooksService {
  import opened Base
  import opened Entities
  import opened Text
  import opened Search

  // ---------------------------------------------------------------- lookup

  /** `findById`: a malformed id is rejected by the database (P2023, BadRequest);
      a well-formed id without a record is NotFound (P2025). */
  function FindById(books: map<Id, Book>, id: Id): (r: Result<Book>)
    ensures r.Ok? <==> ValidId(id) && id in books
    ensures r.Ok? ==> r.value == books[id]
    ensures r.Err? ==> r.error == (if ValidId(id) then NotFound else BadRequest)
  {
    if !ValidId(id) then Err(BadRequest)
    else if id !in books then Err(NotFound)
    else Ok(books[id])
  }

  // ---------------------------------------------------------------- lifecycle

  /** The state changes of a book other than its removal. */
  datatype Transition = Submit | Approve | Reject | Archive | Unarchive

  /** The only state a transition accepts. */
  function Source(t: Transition): BookState {
    match t
    case Submit => DRAFT
    case Approve => UNAPPROVED
    case Reject => UNAPPROVED
    case Archive => VISIBLE
    case Unarchive => ARCHIVED
  }

  /** The state a transition writes. */
  function Target(t: Transition): BookState {
    match t
    case Submit => UNAPPROVED
    case Approve => VISIBLE
    case Reject => DRAFT
    case Archive => ARCHIVED
    case Unarchive => VISIBLE
  }

  /** The state check every transition makes before writing. */
  function Step(t: Transition, s: BookState): Result<BookState> {
    if s == Source(t) then Ok(Target(t)) else Err(BadRequest)
  }

  /** Only ARCHIVED books can be deleted. */
  const DeletableState := ARCHIVED

  /** A run of transitions from a state; the first refused one fails. */
  function Run(ts: seq<Transition>, s: BookState): Result<BookState> {
    if ts == [] then Ok(s)
    else
      match Step(ts[0], s)
      case Err(e) => Err(e)
      case Ok(s') => Run(ts[1..], s')
  }

  /** A transition succeeds exactly from its source state, lands on its
      target, and fails with BadRequest otherwise. */
  lemma StepSpec(t: Transition, s: BookState)
    ensures Step(t, s).Ok? <==> s == Source(t)
    ensures Step(t, s).Ok? ==> Step(t, s).value == Target(t) && Target(t) != s
    ensures Step(t, s).Err? ==> Step(t, s).error == BadRequest
  {
  }

  /** Unarchiving undoes archiving, and rejecting undoes submitting. */
  lemma Undo(s: BookState)
    ensures Step(Archive, s).Ok? ==> Step(Unarchive, Step(Archive, s).value) == Ok(s)
    ensures Step(Submit, s).Ok? ==> Step(Reject, Step(Submit, s).value) == Ok(s)
  {
  }

  /** A book not yet published (DRAFT or UNAPPROVED) can become VISIBLE or
      ARCHIVED only through an approval. */
  lemma {:induction false} PublishedOnlyAfterApproval(ts: seq<Transition>, s: BookState)
    requires s == DRAFT || s == UNAPPROVED
    requires Run(ts, s).Ok? && (Run(ts, s).value == VISIBLE || Run(ts, s).value == ARCHIVED)
    ensures Approve in ts
  {
    if ts == [] {
    } else {
      var s' := Step(ts[0], s).value;
      if ts[0] != Approve {
        assert s' == DRAFT || s' == UNAPPROVED;
        PublishedOnlyAfterApproval(ts[1..], s');
        assert ts[1..] <= ts[1..] && ts == [ts[0]] + ts[1..];
      }
    }
  }

  // ---------------------------------------------------------------- tag diff

  /** The new tags not already on the book, in the order given. */
  function Connect(newTags: seq<Tag>, current: set<Tag>): (r: seq<Tag>)
    ensures forall t :: t in r <==> t in newTags && t !in current
  {
    if newTags == [] then []
    else (if newTags[0] in current then [] else [newTags[0]]) + Connect(newTags[1..], current)
  }

  /** The book's tags that the new list does not name. */
  function Disconnect(current: set<Tag>, newTags: seq<Tag>): set<Tag> {
    set t | t in current && t !in newTags
  }

  /** The book's tags once the disconnects and the connects are applied. */
  function ApplyTags(current: set<Tag>, newTags: seq<Tag>): set<Tag> {
    (current - Disconnect(current, newTags)) + Elems(Connect(newTags, current))
  }

  /** The diff is exact: afterwards the book carries exactly the new tags;
      nothing it already had is connected again, nothing the new list names
      is disconnected, and the tags it keeps are never touched. */
  lemma TagDiff(current: set<Tag>, newTags: seq<Tag>)
    ensures ApplyTags(current, newTags) == Elems(newTags)
    ensures Elems(Connect(newTags, current)) !! current
    ensures Disconnect(current, newTags) !! Elems(newTags)
    ensures current * Elems(newTags) <= current - Disconnect(current, newTags)
  {
  }

  // ---------------------------------------------------------------- inputs

  datatype CreateBookDto = CreateBookDto(title: string, description: string, publishedDate: Option<Date>, tags: seq<Tag>)

  /** Every field optional; `publishedDate` may be set to null. */
  datatype UpdateBookDto = UpdateBookDto(
    title: Option<string>,
    description: Option<string>,
    publishedDate: Option<Option<Date>>,
    tags: Option<seq<Tag>>)

  /** The record `update` writes: the given fields override, the tag set is
      diffed against the new list when one is given. */
  function Updated(b: Book, dto: UpdateBookDto): Book {
    b.(title := dto.title.GetOr(b.title),
       description := dto.description.GetOr(b.description),
       publishedDate := dto.publishedDate.GetOr(b.publishedDate),
       tags := if dto.tags.Some? then ApplyTags(b.tags, dto.tags.value) else b.tags)
  }

  /** The registry after `update`: the connected tags are upserted. */
  function RegistryAfterUpdate(registry: set<Tag>, b: Book, dto: UpdateBookDto): set<Tag> {
    if dto.tags.Some? then registry + Elems(Connect(dto.tags.value, b.tags)) else registry
  }

  /** What `update` does to one record: an omitted tag list leaves the tags
      alone, a given one becomes the tag set; the registry keeps every tag it
      had, the disconnected ones included, and ends up holding the new ones. */
  lemma UpdateSpec(registry: set<Tag>, b: Book, dto: UpdateBookDto)
    requires b.tags <= registry
    ensures dto.tags.None? ==> Updated(b, dto).tags == b.tags
    ensures dto.tags.Some? ==> Updated(b, dto).tags == Elems(dto.tags.value)
    ensures registry <= RegistryAfterUpdate(registry, b, dto)
    ensures Updated(b, dto).tags <= RegistryAfterUpdate(registry, b, dto)
    ensures Updated(b, dto).id == b.id && Updated(b, dto).state == b.state && Updated(b, dto).userId == b.userId
  {
    if dto.tags.Some? {
      TagDiff(b.tags, dto.tags.value);
    }
  }

  // ---------------------------------------------------------------- outcomes

  /** The outcome of a transition on the book with this id. */
  function Moved(books: map<Id, Book>, id: Id, t: Transition): (r: Result<Book>)
    ensures r.Ok? <==> FindById(books, id).Ok? && books[id].state == Source(t)
    ensures r.Ok? ==> r.value == books[id].(state := Target(t))
    ensures r.Err? ==> r.error == (if FindById(books, id).Err? then FindById(books, id).error else BadRequest)
  {
    match FindById(books, id)
    case Err(e) => Err(e)
    case Ok(b) =>
      match Step(t, b.state)
      case Err(e) => Err(e)
      case Ok(s) => Ok(b.(state := s))
  }

  /** The outcome of `delete` on the book with this id. */
  function Removed(books: map<Id, Book>, id: Id): (r: Result<Book>)
    ensures r.Ok? <==> FindById(books, id).Ok? && books[id].state == DeletableState
    ensures r.Ok? ==> r.value == books[id]
    ensures r.Err? ==> r.error == (if FindById(books, id).Err? then FindById(books, id).error else BadRequest)
  {
    match FindById(books, id)
    case Err(e) => Err(e)
    case Ok(b) => if b.state == DeletableState then Ok(b) else Err(BadRequest)
  }

  /** The name a stored upload gets: its slot (`cover` or `book`) followed by
      the upload's extension. */
  function FileName(slot: string, extension: string): string {
    slot + extension
  }

  /** The files of a book after an upload to a slot: the old files of that
      slot (`slot.*`) are unlinked and the new one written. */
  function StoreUpload(names: set<string>, slot: string, extension: string): (r: set<string>)
    ensures FileName(slot, extension) in r
    ensures forall f :: f in r && f != FileName(slot, extension) ==> f in names && !StartsWith(f, slot + ".")
    ensures forall f :: f in names && !StartsWith(f, slot + ".") ==> f in r
  {
    (set f | f in names && !StartsWith(f, slot + ".")) + {FileName(slot, extension)}
  }

  /** `findFileByProxy`: a book whose file is null (or empty) has no file to serve. */
  function FileOf(subject: Result<Book>): (r: Result<string>)
    ensures subject.Err? ==> r == Err(subject.error)
    ensures subject.Ok? ==> (r.Ok? <==> subject.value.bookFile.Some? && subject.value.bookFile.value != "")
    ensures subject.Ok? && r.Ok? ==> r.value == subject.value.bookFile.value
    ensures subject.Ok? && r.Err? ==> r.error == NotFound
  {
    match subject
    case Err(e) => Err(e)
    case Ok(b) => if b.bookFile.None? || b.bookFile.value == "" then Err(NotFound) else Ok(b.bookFile.value)
  }

  /** The body of the listing's loop: pushes the conditions of one segment
      onto the list, or fails as the tag schema does. */
  method PushSegment(u: Unicode, segment: string, conditions: seq<Condition>) returns (r: Result<seq<Condition>>)
    ensures SegmentConditions(u, segment).Err? ==> r == Err(BadRequest)
    ensures SegmentConditions(u, segment).Ok? ==> r == Ok(conditions + SegmentConditions(u, segment).value)
  {
    if ':' in segment {
      var parsed := ParseTag(u, segment);
      if parsed.Err? {
        return Err(BadRequest);
      }
      var (key, value) := parsed.value;
      var out := conditions;
      match key {
        case DescKey =>
          var words := Words(u, LowerStr(u, value));
          for j := 0 to |words|
            invariant out == conditions + DescConditions(words[..j])
          {
            assert DescConditions(words[..j + 1]) == DescConditions(words[..j]) + [DescContains(words[j])];
            out := out + [DescContains(words[j])];
          }
          assert words[..|words|] == words;
        case TagKey(t) =>
          out := out + [HasTag(t, value)];
      }
      return Ok(out);
    } else {
      var out := conditions;
      var words := Words(u, LowerStr(u, segment));
      for j := 0 to |words|
        invariant out == conditions + TitleConditions(words[..j])
      {
        assert TitleConditions(words[..j + 1]) == TitleConditions(words[..j]) + [TitleContains(words[j])];
        out := out + [TitleContains(words[j])];
      }
      assert words[..|words|] == words;
      return Ok(out);
    }
  }

  // ---------------------------------------------------------------- the store

  /** The Prisma tables the service uses: books by id, the tag registry keyed
      by (type, name), and the files stored per book id. */
  class BookStore {
    var books: map<Id, Book>
    var tags: set<Tag>
    var files: map<Id, set<string>>
    /** The database's Unicode tables, used by case-insensitive matching. */
    const unicode: Unicode

    /** Records sit under their own well-formed id, every attached tag is in
        the registry, and files belong to existing books. */
    ghost predicate Valid()
      reads this
    {
      && (forall id :: id in books ==> books[id].id == id && ValidId(id) && books[id].tags <= tags)
      && files.Keys <= books.Keys
    }

    constructor(u: Unicode)
      ensures Valid() && books == map[] && tags == {} && files == map[] && unicode == u
    {
      books := map[];
      tags := {};
      files := map[];
      unicode := u;
    }

    /** `create`: a new DRAFT owned by the creator, without files, carrying the
        given tags; tags the registry lacks are added to it. The id is the one
        the database generates. */
    method Create(dto: CreateBookDto, user: User, freshId: Id) returns (b: Book)
      requires Valid()
      requires ValidId(freshId) && freshId !in books
      modifies this`books, this`tags
      ensures Valid()
      ensures b.id == freshId && b.state == DRAFT && b.userId == Some(user.id)
      ensures b.imageFile == None && b.bookFile == None
      ensures b.title == dto.title && b.description == dto.description && b.publishedDate == dto.publishedDate
      ensures b.tags == Elems(dto.tags)
      ensures books == old(books)[freshId := b]
      ensures tags == old(tags) + Elems(dto.tags)
      ensures FindById(books, freshId) == Ok(b)
    {
      b := Book(freshId, dto.title, dto.description, dto.publishedDate, Some(user.id), DRAFT, None, None, Elems(dto.tags));
      books := books[freshId := b];
      tags := tags + Elems(dto.tags);
    }

    /** `findAllVisible`: builds the condition list segment by segment and
        selects the books that satisfy all of it; a malformed tag segment
        aborts with BadRequest. */
    method FindAllVisible(query: string) returns (r: Result<set<Book>>)
      ensures QueryConditions(unicode, Segments(query)).Err? ==> r == Err(BadRequest)
      ensures QueryConditions(unicode, Segments(query)).Ok? ==>
        r == Ok(set b | b in books.Values && Matches(unicode, b, QueryConditions(unicode, Segments(query)).value))
      ensures r.Ok? ==> forall b :: b in r.value ==> b in books.Values && b.state == VISIBLE
    {
      var segments := Segments(query);
      r := FindAllVisibleIn(segments);
    }

    /** The loop of `findAllVisible`, over the cleaned segments. */
    method FindAllVisibleIn(segments: seq<string>) returns (r: Result<set<Book>>)
      ensures QueryConditions(unicode, segments).Err? ==> r == Err(BadRequest)
      ensures QueryConditions(unicode, segments).Ok? ==>
        r == Ok(set b | b in books.Values && Matches(unicode, b, QueryConditions(unicode, segments).value))
      ensures r.Ok? ==> forall b :: b in r.value ==> b in books.Values && b.state == VISIBLE
    {
      var conditions := [StateIs(VISIBLE)];
      assert segments[..0] == [];
      assert ConditionsOf(unicode, []) == Ok([]);
      assert conditions[1..] == [];
      for i := 0 to |segments|
        invariant |conditions| >= 1 && conditions[0] == StateIs(VISIBLE)
        invariant ConditionsOf(unicode, segments[..i]) == Ok(conditions[1..])
      {
        ConditionsOfSnoc(unicode, segments, i);
        var next := PushSegment(unicode, segments[i], conditions);
        if next.Err? {
          ConditionsOfPrefixFails(unicode, segments, i + 1);
          QueryFails(unicode, segments);
          return Err(BadRequest);
        }
        assert next.value[1..] == conditions[1..] + next.value[|conditions|..];
        conditions := next.value;
      }
      assert segments[..|segments|] == segments;
      assert conditions == [StateIs(VISIBLE)] + conditions[1..];
      assert QueryConditions(unicode, segments) == Ok(conditions);
      forall b | b in books.Values && Matches(unicode, b, conditions) ensures b.state == VISIBLE {
        assert Holds(unicode, b, conditions[0]);
      }
      return Ok(set b | b in books.Values && Matches(unicode, b, conditions));
    }

    /** `findAllDrafts`: the caller's books still in preparation. */
    function FindAllDrafts(user: User): set<Book>
      reads this
    {
      set b | b in books.Values && b.userId == Some(user.id) && (b.state == DRAFT || b.state == UNAPPROVED)
    }

    /** `findAllPendingApproval`. */
    function FindAllPendingApproval(): set<Book>
      reads this
    {
      set b | b in books.Values && b.state == UNAPPROVED
    }

    /** `findAllArchived`. */
    function FindAllArchived(): set<Book>
      reads this
    {
      set b | b in books.Values && b.state == ARCHIVED
    }

    /** `findFileByProxy` on the book the route names. */
    function FindFileByProxy(id: Id): (r: Result<string>)
      reads this
      ensures r.Ok? <==> FindById(books, id).Ok? && books[id].bookFile.Some? && books[id].bookFile.value != ""
      ensures r.Ok? ==> Some(r.value) == books[id].bookFile
      ensures FindById(books, id).Ok? && r.Err? ==> r.error == NotFound
    {
      FileOf(FindById(books, id))
    }

    /** `update`: the fetched book gets the given fields and the tag diff. */
    method Update(id: Id, dto: UpdateBookDto) returns (r: Result<Book>)
      requires Valid()
      modifies this`books, this`tags
      ensures Valid()
      ensures old(FindById(books, id)).Err? ==>
        r == Err(old(FindById(books, id)).error) && books == old(books) && tags == old(tags)
      ensures old(FindById(books, id)).Ok? ==>
        && r == Ok(Updated(old(books[id]), dto))
        && books == old(books)[id := r.value]
        && tags == RegistryAfterUpdate(old(tags), old(books[id]), dto)
    {
      var found := FindById(books, id);
      if found.Err? {
        return Err(found.error);
      }
      var b := found.value;
      UpdateSpec(tags, b, dto);
      var updated := Updated(b, dto);
      books := books[id := updated];
      tags := RegistryAfterUpdate(tags, b, dto);
      r := Ok(updated);
    }

    /** `changeCover`: stores the upload in the book's `cover` slot and records its name. */
    method ChangeCover(id: Id, extension: string) returns (r: Result<Book>)
      requires Valid()
      modifies this`books, this`files
      ensures Valid()
      ensures old(FindById(books, id)).Err? ==>
        r == Err(old(FindById(books, id)).error) && books == old(books) && files == old(files)
      ensures old(FindById(books, id)).Ok? ==>
        && r == Ok(old(books[id]).(imageFile := Some(FileName("cover", extension))))
        && books == old(books)[id := r.value]
        && files == old(files)[id := StoreUpload(if id in old(files) then old(files[id]) else {}, "cover", extension)]
    {
      r := StoreFile(id, "cover", extension);
    }

    /** `changeFile`: stores the upload in the book's `book` slot and records its name. */
    method ChangeFile(id: Id, extension: string) returns (r: Result<Book>)
      requires Valid()
      modifies this`books, this`files
      ensures Valid()
      ensures old(FindById(books, id)).Err? ==>
        r == Err(old(FindById(books, id)).error) && books == old(books) && files == old(files)
      ensures old(FindById(books, id)).Ok? ==>
        && r == Ok(old(books[id]).(bookFile := Some(FileName("book", extension))))
        && books == old(books)[id := r.value]
        && files == old(files)[id := StoreUpload(if id in old(files) then old(files[id]) else {}, "book", extension)]
    {
      r := StoreFile(id, "book", extension);
    }

    /** The upload shared by `changeCover` and `changeFile`. */
    method StoreFile(id: Id, slot: string, extension: string) returns (r: Result<Book>)
      requires Valid()
      requires slot == "cover" || slot == "book"
      modifies this`books, this`files
      ensures Valid()
      ensures old(FindById(books, id)).Err? ==>
        r == Err(old(FindById(books, id)).error) && books == old(books) && files == old(files)
      ensures old(FindById(books, id)).Ok? ==>
        && r == Ok(if slot == "cover" then old(books[id]).(imageFile := Some(FileName(slot, extension)))
                   else old(books[id]).(bookFile := Some(FileName(slot, extension))))
        && books == old(books)[id := r.value]
        && files == old(files)[id := StoreUpload(if id in old(files) then old(files[id]) else {}, slot, extension)]
    {
      var found := FindById(books, id);
      if found.Err? {
        return Err(found.error);
      }
      var names := if id in files then files[id] else {};
      files := files[id := StoreUpload(names, slot, extension)];
      var name := FileName(slot, extension);
      var b := if slot == "cover" then found.value.(imageFile := Some(name)) else found.value.(bookFile := Some(name));
      books := books[id := b];
      r := Ok(b);
    }

    /** `archive`, `unarchive`, `submit`, `approve` and `reject`: check the
        fetched book's state, then write the new one. Nothing else changes. */
    method Move(id: Id, t: Transition) returns (r: Result<Book>)
      requires Valid()
      modifies this`books
      ensures Valid()
      ensures r == Moved(old(books), id, t)
      ensures books == if r.Ok? then old(books)[id := r.value] else old(books)
    {
      var found := FindById(books, id);
      if found.Err? {
        return Err(found.error);
      }
      var b := found.value;
      if b.state != Source(t) {
        return Err(BadRequest);
      }
      var moved := b.(state := Target(t));
      books := books[id := moved];
      r := Ok(moved);
    }

    /** `delete`: only an ARCHIVED book is removed, together with all of its
        stored files, after which the id is no longer found. */
    method Delete(id: Id) returns (r: Result<Book>)
      requires Valid()
      modifies this`books, this`files
      ensures Valid()
      ensures r == Removed(old(books), id)
      ensures r.Ok? ==> books == old(books) - {id} && files == old(files) - {id} && FindById(books, id) == Err(NotFound)
      ensures r.Err? ==> books == old(books) && files == old(files)
    {
      var found := FindById(books, id);
      if found.Err? {
        return Err(found.error);
      }
      if found.value.state != DeletableState {
        return Err(BadRequest);
      }
      books := books - {id};
      files := files - {id};
      r := found;
    }
  }

  // ---------------------------------------------------------------- listings

  /** An empty query lists every VISIBLE book. */
  lemma EmptyQuery(u: Unicode)
    ensures Segments("") == []
    ensures QueryConditions(u, Segments("")) == Ok([StateIs(VISIBLE)])
  {
    assert Split("", ';') == [""];
    assert Trim("") == "";
    assert CleanSegments([""]) == [] + CleanSegments([]);
    assert Segments("") == [];
    assert ConditionsOf(u, []) == Ok([]);
    assert [StateIs(VISIBLE)] + [] == [StateIs(VISIBLE)];
  }

  /** What the three moderation listings hold: pending books are UNAPPROVED,
      archived ones ARCHIVED, and the drafts are the caller's books that are
      DRAFT or UNAPPROVED (so never VISIBLE or ARCHIVED). Every listed book is
      stored; every stored book in the right state is listed. The listings
      never overlap, except that a caller's UNAPPROVED book is both a draft
      and pending. */
  lemma Listings(store: BookStore, user: User)
    ensures forall b :: b in store.FindAllPendingApproval() ==> b in store.books.Values && b.state == UNAPPROVED
    ensures forall b :: b in store.FindAllArchived() ==> b in store.books.Values && b.state == ARCHIVED
    ensures forall b :: b in store.FindAllDrafts(user) ==>
      b in store.books.Values && b.userId == Some(user.id) && b.state != VISIBLE && b.state != ARCHIVED
    ensures forall b :: b in store.books.Values && b.state == UNAPPROVED ==> b in store.FindAllPendingApproval()
    ensures forall b :: b in store.books.Values && b.state == ARCHIVED ==> b in store.FindAllArchived()
    ensures forall b :: b in store.books.Values && b.userId == Some(user.id) && b.state == DRAFT ==>
      b in store.FindAllDrafts(user)
    ensures store.FindAllPendingApproval() !! store.FindAllArchived()
    ensures store.FindAllDrafts(user) !! store.FindAllArchived()
    ensures forall b :: b in store.books.Values && b.userId == Some(user.id) && b.state == UNAPPROVED ==>
      b in store.FindAllDrafts(user) && b in store.FindAllPendingApproval()
  {
  }
}
