/**
 * The authorization configuration of the application: ADMIN is the
 * superuser role, a request is turned into an actor (its user's id and
 * permissions, or an anonymous actor without roles), and the access guard
 * decides an ability with the grant table.
 */
module CaslConfig {
  import opened Base
  import opened Entities
  import opened BooksPermissions

  const SuperuserRole := ADMIN

  /** The id given to a request without a user. */
  const AnonymousId := "unauthenticated"

  datatype Actor = Actor(id: Id, roles: set<Permission>)

  /** `getUserFromRequest`. */
  function ActorOf(user: Option<User>): (a: Actor)
    ensures user.Some? ==> a.id == user.value.id && a.roles == user.value.permissions
    ensures user.None? ==> a.id == AnonymousId && a.roles == {}
  {
    match user
    case Some(u) => Actor(u.id, u.permissions)
    case None => Actor(AnonymousId, {})
  }

  /** The access guard's decision for an ability. `subject` is what the
      ability's subject hook yields, when the ability has one; it is consulted
      only when every rule of the actor relevant to the action is
      conditional, and its failure is the guard's failure. Otherwise the check
      is against the subject type. A denial is Forbidden. */
  function AccessGuard(actor: Actor, a: Action, subject: Option<Result<Book>>): Outcome {
    if SuperuserRole in actor.roles then Pass
    else if !AllConditional(actor.roles, actor.id, a) || subject.None? then
      (if CanOnType(actor.roles, actor.id, a) then Pass else Fail(Forbidden))
    else
      match subject.value
      case Err(e) => Fail(e)
      case Ok(b) => if Can(actor.roles, actor.id, a, b) then Pass else Fail(Forbidden)
  }

  /** The superuser passes every ability, whatever the subject. */
  lemma SuperuserPasses(actor: Actor, a: Action, subject: Option<Result<Book>>)
    requires ADMIN in actor.roles
    ensures AccessGuard(actor, a, subject) == Pass
  {
  }

  /** On a resolved subject the guard is exact: it passes precisely when the
      actor is the superuser or the table permits the action on that book.
      The shortcut to the subject type is sound because it is taken only when
      an unconditional rule, which permits every book, is present. */
  lemma GuardOnSubject(actor: Actor, a: Action, b: Book)
    ensures AccessGuard(actor, a, Some(Ok(b))) == Pass <==> ADMIN in actor.roles || Can(actor.roles, actor.id, a, b)
    ensures AccessGuard(actor, a, Some(Ok(b))) != Pass ==> AccessGuard(actor, a, Some(Ok(b))) == Fail(Forbidden)
  {
    if ADMIN !in actor.roles {
      ConditionalTable(actor.roles, actor.id, a);
      CanTable(actor.roles, actor.id, a, b);
      CanOnTypeTable(actor.roles, actor.id, a);
    }
  }

  /** What the guard does for an actor who is not the superuser and whose
      subject hook fails: the failure surfaces, unless the action is decided on
      the subject type (only `create` for a CREATE holder). */
  lemma GuardOnMissingSubject(actor: Actor, a: Action, e: Error)
    requires ADMIN !in actor.roles
    ensures AccessGuard(actor, a, Some(Err(e))) ==
      if a == Create && CREATE in actor.roles then Pass else Fail(e)
  {
    ConditionalTable(actor.roles, actor.id, a);
    CanOnTypeTable(actor.roles, actor.id, a);
  }

  /** A request without a user is granted only the rules for everyone, and
      no stored book is the anonymous actor's own: its id is not a UUID. */
  lemma AnonymousActor(a: Action, b: Book)
    ensures ActorOf(None).roles == {}
    ensures Can(ActorOf(None).roles, ActorOf(None).id, a, b) <==>
      || (a == Read && b.state == VISIBLE)
      || ((a == Read || a == Update || a == Delete) && b.state == DRAFT && b.userId == Some(AnonymousId))
    ensures !ValidId(AnonymousId)
  {
    EveryoneRules(AnonymousId, a, b);
  }
}
