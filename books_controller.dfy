/**
 * The books endpoints and their guards: which endpoints require an
 * authenticated caller, and the ability (action and subject hook) the access
 * guard checks for each. Composed with the service, this gives who can do
 * what to which book.
 */
module BooksController {
  import opened Base
  import opened Entities
  import opened BooksPermissions
  import opened CaslConfig
  import opened BooksHook
  import S = BooksService

  datatype Endpoint =
    | ListVisible | ListDrafts | ListPending | ListArchived | CreateBook
    | FindOne | FindCover | FindFile | UpdateBook | SetCover | SetFile
    | SubmitBook | ApproveBook | RejectBook | ArchiveBook | UnarchiveBook | DeleteBook

  /** The ability the access guard checks: an action and, optionally, the hook
      that yields the subject. */
  datatype Ability = Ability(action: Action, hook: Option<SubjectSource>)

  /** The drafts listing's subject: a DRAFT owned by the caller. */
  function DraftsSubject(u: User): PartialBook {
    OnlyState(DRAFT).(userId := Some(Some(u.id)))
  }

  /** The ability bound to each endpoint; the public listing has no guard. */
  function Binding(e: Endpoint): Option<Ability> {
    match e
    case ListVisible => None
    case ListDrafts => Some(Ability(Read, Some(Synthetic(OfUser(DraftsSubject)))))
    case ListPending => Some(Ability(Read, Some(Synthetic(Fixed(OnlyState(UNAPPROVED))))))
    case ListArchived => Some(Ability(Read, Some(Synthetic(Fixed(OnlyState(ARCHIVED))))))
    case CreateBook => Some(Ability(Create, None))
    case FindOne => Some(Ability(Read, Some(RouteId)))
    case FindCover => Some(Ability(Read, Some(RouteId)))
    case FindFile => Some(Ability(Read, Some(RouteId)))
    case UpdateBook => Some(Ability(Update, Some(RouteId)))
    case SetCover => Some(Ability(Update, Some(RouteId)))
    case SetFile => Some(Ability(Update, Some(RouteId)))
    case SubmitBook => Some(Ability(Create, Some(RouteId)))
    case ApproveBook => Some(Ability(Approve, Some(RouteId)))
    case RejectBook => Some(Ability(Approve, Some(RouteId)))
    case ArchiveBook => Some(Ability(Archive, Some(RouteId)))
    case UnarchiveBook => Some(Ability(Unarchive, Some(RouteId)))
    case DeleteBook => Some(Ability(Delete, Some(RouteId)))
  }

  /** The endpoints marked public: the authentication guard lets a caller
      without a user through. */
  predicate IsPublic(e: Endpoint) {
    e == FindOne || e == FindCover || e == FindFile
  }

  /** Whether a request reaches the handler: the authentication guard, then
      the access guard with the bound ability. `user` is the user the
      authentication layer attached to the request, if any. */
  function Admit(books: map<Id, Book>, e: Endpoint, user: Option<User>, routeId: Id): Outcome {
    match Binding(e)
    case None => Pass
    case Some(ab) =>
      if user.None? && !IsPublic(e) then Fail(Unauthorized)
      else
        var subject := if ab.hook.Some? then Some(Subject(ab.hook.value, books, user, routeId)) else None;
        AccessGuard(ActorOf(user), ab.action, subject)
  }

  /** The guard of a route-id endpoint, read through the table. */
  lemma RouteGuard(books: map<Id, Book>, e: Endpoint, user: Option<User>, routeId: Id)
    requires Binding(e).Some? && Binding(e).value.hook == Some(RouteId)
    requires user.Some? || IsPublic(e)
    ensures var actor := ActorOf(user);
      var a := Binding(e).value.action;
      var found := S.FindById(books, routeId);
      Admit(books, e, user, routeId) ==
        if ADMIN in actor.roles then Pass
        else if a == Create && CREATE in actor.roles then Pass
        else if found.Err? then Fail(found.error)
        else if Can(actor.roles, actor.id, a, found.value) then Pass
        else Fail(Forbidden)
  {
    var actor := ActorOf(user);
    var a := Binding(e).value.action;
    var found := S.FindById(books, routeId);
    if ADMIN !in actor.roles {
      match found
      case Err(err) => GuardOnMissingSubject(actor, a, err);
      case Ok(b) =>
        GuardOnSubject(actor, a, b);
        if a == Create && CREATE in actor.roles {
          CanTable(actor.roles, actor.id, a, b);
        }
    }
  }

  // ---------------------------------------------------------------- properties of the bindings

  /** The public listing has no guard at all. */
  lemma ListingUnguarded(books: map<Id, Book>, user: Option<User>, routeId: Id)
    ensures Admit(books, ListVisible, user, routeId) == Pass
  {
  }

  /** Every other endpoint that is not public turns away a caller without a user. */
  lemma AuthenticationRequired(books: map<Id, Book>, e: Endpoint, routeId: Id)
    requires e != ListVisible && !IsPublic(e)
    ensures Admit(books, e, None, routeId) == Fail(Unauthorized)
  {
  }

  /** Endpoints bound to the same ability are guarded alike: approve and
      reject; update, setCover and setFile; findOne, findCover and findFile. */
  lemma SharedGuards(books: map<Id, Book>, user: Option<User>, routeId: Id)
    ensures Admit(books, ApproveBook, user, routeId) == Admit(books, RejectBook, user, routeId)
    ensures Admit(books, UpdateBook, user, routeId) == Admit(books, SetCover, user, routeId)
    ensures Admit(books, UpdateBook, user, routeId) == Admit(books, SetFile, user, routeId)
    ensures Admit(books, FindOne, user, routeId) == Admit(books, FindCover, user, routeId)
    ensures Admit(books, FindOne, user, routeId) == Admit(books, FindFile, user, routeId)
  {
    SameBinding(books, ApproveBook, RejectBook, user, routeId);
    SameBinding(books, UpdateBook, SetCover, user, routeId);
    SameBinding(books, UpdateBook, SetFile, user, routeId);
    SameBinding(books, FindOne, FindCover, user, routeId);
    SameBinding(books, FindOne, FindFile, user, routeId);
  }

  /** A request is admitted according to the endpoint's binding and publicity only. */
  lemma SameBinding(books: map<Id, Book>, e1: Endpoint, e2: Endpoint, user: Option<User>, routeId: Id)
    requires Binding(e1) == Binding(e2) && IsPublic(e1) == IsPublic(e2)
    ensures Admit(books, e1, user, routeId) == Admit(books, e2, user, routeId)
  {
  }

  /** An anonymous caller of findOne, findCover or findFile gets the lookup's
      error for a missing book, and otherwise passes exactly for VISIBLE books
      (or DRAFTs owned by the anonymous id). */
  lemma AnonymousRead(books: map<Id, Book>, e: Endpoint, routeId: Id)
    requires IsPublic(e)
    ensures S.FindById(books, routeId).Err? ==> Admit(books, e, None, routeId) == Fail(S.FindById(books, routeId).error)
    ensures Admit(books, e, None, routeId) == Pass <==>
      && S.FindById(books, routeId).Ok?
      && (books[routeId].state == VISIBLE || (books[routeId].state == DRAFT && books[routeId].userId == Some(AnonymousId)))
  {
    RouteGuard(books, e, None, routeId);
    if S.FindById(books, routeId).Ok? {
      AnonymousActor(Read, books[routeId]);
    }
  }

  /** When every stored book is owned by a user (whose ids are UUIDs), an
      anonymous caller can fetch exactly the VISIBLE books. */
  lemma AnonymousReadsVisible(books: map<Id, Book>, e: Endpoint, routeId: Id)
    requires IsPublic(e)
    requires forall id :: id in books && books[id].userId.Some? ==> ValidId(books[id].userId.value)
    ensures Admit(books, e, None, routeId) == Pass <==> S.FindById(books, routeId).Ok? && books[routeId].state == VISIBLE
  {
    AnonymousRead(books, e, routeId);
    AnonymousActor(Read, Book("", "", "", None, None, DRAFT, None, None, {}));
  }

  /** `create` passes exactly for ADMIN and CREATE holders. */
  lemma CreateGuard(books: map<Id, Book>, user: Option<User>, routeId: Id)
    ensures Admit(books, CreateBook, user, routeId) == Pass <==>
      user.Some? && (ADMIN in user.value.permissions || CREATE in user.value.permissions)
  {
    if user.Some? {
      CanOnTypeTable(user.value.permissions, user.value.id, Create);
      ConditionalTable(user.value.permissions, user.value.id, Create);
    }
  }

  /** `submit` is guarded by `create`: it passes exactly for ADMIN and CREATE
      holders, whichever book the route names and whoever owns it. */
  lemma SubmitGuard(books: map<Id, Book>, user: Option<User>, routeId: Id)
    requires user.Some?
    ensures Admit(books, SubmitBook, user, routeId) == Pass <==>
      ADMIN in user.value.permissions || CREATE in user.value.permissions
  {
    RouteGuard(books, SubmitBook, user, routeId);
    var found := S.FindById(books, routeId);
    if found.Ok? {
      CanTable(user.value.permissions, user.value.id, Create, found.value);
    }
  }

  /** Hence any CREATE holder can submit a DRAFT of another user. */
  lemma SubmitForeignDraft(books: map<Id, Book>, u: User, routeId: Id)
    requires CREATE in u.permissions
    requires S.FindById(books, routeId).Ok? && books[routeId].state == DRAFT
    ensures Admit(books, SubmitBook, Some(u), routeId) == Pass
    ensures S.Moved(books, routeId, S.Submit).Ok?
  {
    SubmitGuard(books, Some(u), routeId);
  }

  /** The listing guards: every authenticated caller may list their drafts;
      pending books need ADMIN, APPROVE or EDIT; archived books need ADMIN,
      ARCHIVE or DELETE. */
  lemma ListingGuards(books: map<Id, Book>, u: User, routeId: Id)
    ensures Admit(books, ListDrafts, Some(u), routeId) == Pass
    ensures Admit(books, ListPending, Some(u), routeId) == Pass <==>
      ADMIN in u.permissions || APPROVE in u.permissions || EDIT in u.permissions
    ensures Admit(books, ListArchived, Some(u), routeId) == Pass <==>
      ADMIN in u.permissions || ARCHIVE in u.permissions || DELETE in u.permissions
  {
    var actor := ActorOf(Some(u));
    GuardOnSubject(actor, Read, Synthesize(DraftsSubject(u)));
    CanTable(actor.roles, actor.id, Read, Synthesize(DraftsSubject(u)));
    GuardOnSubject(actor, Read, Synthesize(OnlyState(UNAPPROVED)));
    CanTable(actor.roles, actor.id, Read, Synthesize(OnlyState(UNAPPROVED)));
    GuardOnSubject(actor, Read, Synthesize(OnlyState(ARCHIVED)));
    CanTable(actor.roles, actor.id, Read, Synthesize(OnlyState(ARCHIVED)));
  }

  /** A stored book, fetched by its id with `findOne`, passes exactly when
      the caller is ADMIN or the table lets them read it. */
  lemma FetchStored(store: S.BookStore, u: User, b: Book)
    requires store.Valid() && b in store.books.Values
    ensures Admit(store.books, FindOne, Some(u), b.id) == Pass <==>
      ADMIN in u.permissions || Expected(u.permissions, u.id, Read, b)
  {
    var id :| id in store.books && store.books[id] == b;
    assert S.FindById(store.books, b.id) == Ok(b);
    RouteGuard(store.books, FindOne, Some(u), b.id);
    CanTable(u.permissions, u.id, Read, b);
  }

  /** The listings agree with the books one may fetch: a caller admitted to
      the pending or archived listing may fetch every book in it by id, but a
      caller's UNAPPROVED draft, listed among their drafts, can be fetched by
      them only with ADMIN, APPROVE or EDIT. */
  lemma ListedBooksFetchable(store: S.BookStore, u: User, routeId: Id)
    requires store.Valid()
    ensures Admit(store.books, ListPending, Some(u), routeId) == Pass ==>
      forall b :: b in store.FindAllPendingApproval() ==> Admit(store.books, FindOne, Some(u), b.id) == Pass
    ensures Admit(store.books, ListArchived, Some(u), routeId) == Pass ==>
      forall b :: b in store.FindAllArchived() ==> Admit(store.books, FindOne, Some(u), b.id) == Pass
    ensures forall b :: b in store.FindAllDrafts(u) ==>
      (Admit(store.books, FindOne, Some(u), b.id) == Pass <==>
        b.state == DRAFT || ADMIN in u.permissions || APPROVE in u.permissions || EDIT in u.permissions)
  {
    ListingGuards(store.books, u, routeId);
    S.Listings(store, u);
    forall b | b in store.books.Values
      ensures Admit(store.books, FindOne, Some(u), b.id) == Pass <==>
        ADMIN in u.permissions || Expected(u.permissions, u.id, Read, b)
    {
      FetchStored(store, u, b);
    }
  }

  // ---------------------------------------------------------------- end to end

  /** A delete that passes the guards and succeeds in the service was made
      by an ADMIN or DELETE holder. */
  lemma DeleteNeedsRole(books: map<Id, Book>, user: Option<User>, routeId: Id)
    requires Admit(books, DeleteBook, user, routeId) == Pass
    requires S.Removed(books, routeId).Ok?
    ensures user.Some? && (ADMIN in user.value.permissions || DELETE in user.value.permissions)
  {
    RouteGuard(books, DeleteBook, user, routeId);
    var actor := ActorOf(user);
    CanTable(actor.roles, actor.id, Delete, books[routeId]);
  }

  /** The owner's grant to delete their DRAFT passes the guard but never
      deletes anything: the service refuses every book that is not ARCHIVED. */
  lemma OwnDraftDeleteRefused(books: map<Id, Book>, u: User, routeId: Id)
    requires S.FindById(books, routeId).Ok? && books[routeId].state == DRAFT && books[routeId].userId == Some(u.id)
    ensures Admit(books, DeleteBook, Some(u), routeId) == Pass
    ensures S.Removed(books, routeId) == Err(BadRequest)
  {
    RouteGuard(books, DeleteBook, Some(u), routeId);
    CanTable(u.permissions, u.id, Delete, books[routeId]);
  }

  /** A moderation step that passes the guards and succeeds in the service
      was made by a holder of the matching role (or ADMIN). */
  lemma ModerationNeedsRole(books: map<Id, Book>, user: Option<User>, routeId: Id)
    ensures Admit(books, ApproveBook, user, routeId) == Pass && S.Moved(books, routeId, S.Approve).Ok? ==>
      user.Some? && (ADMIN in user.value.permissions || APPROVE in user.value.permissions)
    ensures Admit(books, RejectBook, user, routeId) == Pass && S.Moved(books, routeId, S.Reject).Ok? ==>
      user.Some? && (ADMIN in user.value.permissions || APPROVE in user.value.permissions)
    ensures Admit(books, ArchiveBook, user, routeId) == Pass && S.Moved(books, routeId, S.Archive).Ok? ==>
      user.Some? && (ADMIN in user.value.permissions || ARCHIVE in user.value.permissions || DELETE in user.value.permissions)
    ensures Admit(books, UnarchiveBook, user, routeId) == Pass && S.Moved(books, routeId, S.Unarchive).Ok? ==>
      user.Some? && (ADMIN in user.value.permissions || ARCHIVE in user.value.permissions || DELETE in user.value.permissions)
  {
    ApprovalNeedsRole(books, user, routeId, ApproveBook);
    ApprovalNeedsRole(books, user, routeId, RejectBook);
    ArchivalNeedsRole(books, user, routeId, ArchiveBook);
    ArchivalNeedsRole(books, user, routeId, UnarchiveBook);
  }

  /** An approve or reject that passes the guards on an existing book came
      from ADMIN or APPROVE. */
  lemma ApprovalNeedsRole(books: map<Id, Book>, user: Option<User>, routeId: Id, e: Endpoint)
    requires e == ApproveBook || e == RejectBook
    ensures Admit(books, e, user, routeId) == Pass && S.FindById(books, routeId).Ok? ==>
      user.Some? && (ADMIN in user.value.permissions || APPROVE in user.value.permissions)
  {
    if user.Some? && S.FindById(books, routeId).Ok? {
      var actor := ActorOf(user);
      RouteGuard(books, e, user, routeId);
      CanTable(actor.roles, actor.id, Approve, books[routeId]);
    }
  }

  /** An archive or unarchive that passes the guards on an existing book came
      from ADMIN, ARCHIVE or DELETE. */
  lemma ArchivalNeedsRole(books: map<Id, Book>, user: Option<User>, routeId: Id, e: Endpoint)
    requires e == ArchiveBook || e == UnarchiveBook
    ensures Admit(books, e, user, routeId) == Pass && S.FindById(books, routeId).Ok? ==>
      user.Some? && (ADMIN in user.value.permissions || ARCHIVE in user.value.permissions || DELETE in user.value.permissions)
  {
    if user.Some? && S.FindById(books, routeId).Ok? {
      var actor := ActorOf(user);
      var a := Binding(e).value.action;
      RouteGuard(books, e, user, routeId);
      CanTable(actor.roles, actor.id, a, books[routeId]);
    }
  }

  /** An update that passes the guards came from ADMIN, the owner of a DRAFT,
      or an EDIT holder on an UNAPPROVED or VISIBLE book: no one else edits an
      ARCHIVED book. */
  lemma UpdateNeedsRole(books: map<Id, Book>, user: Option<User>, routeId: Id)
    requires Admit(books, UpdateBook, user, routeId) == Pass
    ensures user.Some?
    ensures ADMIN !in user.value.permissions ==>
      && S.FindById(books, routeId).Ok?
      && var b := books[routeId];
         || (b.state == DRAFT && b.userId == Some(user.value.id))
         || (EDIT in user.value.permissions && (b.state == UNAPPROVED || b.state == VISIBLE))
  {
    RouteGuard(books, UpdateBook, user, routeId);
    if ADMIN !in user.value.permissions && S.FindById(books, routeId).Ok? {
      CanTable(user.value.permissions, user.value.id, Update, books[routeId]);
    }
  }
}
