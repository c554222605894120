/**
 * The grant table of the books resource: for every role (and for everyone)
 * the actions it permits, each either on any book or only on books whose
 * state (and owner) match. The table holds `can` rules only.
 */
module BooksPermissions {
  import opened Base
  import opened Entities

  /** The library's default actions followed by the custom ones. */
  datatype Action = Read | Aggregate | Create | Update | Delete | Manage | Archive | Unarchive | Approve

  /** A rule's conditions: the book's state, and its owner when `userId` is given. */
  datatype Conditions = Conditions(state: BookState, userId: Option<Id>)

  /** One `can(action, Book, conditions?)` rule. */
  datatype Grant = Grant(action: Action, conditions: Option<Conditions>)

  /** The keys of the table: the rules for everyone and the rules per permission. */
  datatype RoleKey = Everyone | Granted(permission: Permission)

  function OnState(a: Action, s: BookState): Grant {
    Grant(a, Some(Conditions(s, None)))
  }

  function OnOwnDraft(a: Action, actorId: Id): Grant {
    Grant(a, Some(Conditions(DRAFT, Some(actorId))))
  }

  /** The rules a key issues for the actor with this id. DELETE extends
      ARCHIVE: it issues ARCHIVE's rules and then its own. ADMIN has no entry:
      it is the superuser role and never reaches the table. */
  function Rules(k: RoleKey, actorId: Id): seq<Grant> {
    match k
    case Everyone => [OnState(Read, VISIBLE), OnOwnDraft(Read, actorId), OnOwnDraft(Update, actorId), OnOwnDraft(Delete, actorId)]
    case Granted(CREATE) => [Grant(Create, None)]
    case Granted(APPROVE) => [OnState(Read, UNAPPROVED), OnState(Approve, UNAPPROVED)]
    case Granted(ARCHIVE) => ArchiveRules()
    case Granted(DELETE) => ArchiveRules() + [OnState(Delete, ARCHIVED)]
    case Granted(EDIT) => [OnState(Read, UNAPPROVED), OnState(Update, UNAPPROVED), OnState(Update, VISIBLE)]
    case Granted(ADMIN) => []
  }

  /** ARCHIVE's rules, which DELETE extends. */
  function ArchiveRules(): seq<Grant> {
    [OnState(Read, ARCHIVED), OnState(Archive, VISIBLE), OnState(Unarchive, ARCHIVED)]
  }

  const AllKeys: seq<RoleKey> :=
    [Everyone, Granted(ADMIN), Granted(CREATE), Granted(APPROVE), Granted(ARCHIVE), Granted(DELETE), Granted(EDIT)]

  lemma EveryKeyListed(k: RoleKey)
    ensures k in AllKeys
  {
    if k.Granted? {
      match k.permission
      case ADMIN => assert AllKeys[1] == k;
      case CREATE => assert AllKeys[2] == k;
      case APPROVE => assert AllKeys[3] == k;
      case ARCHIVE => assert AllKeys[4] == k;
      case DELETE => assert AllKeys[5] == k;
      case EDIT => assert AllKeys[6] == k;
    }
  }

  /** The actor holds a key: everyone holds `Everyone`. */
  predicate HasKey(roles: set<Permission>, k: RoleKey) {
    k.Everyone? || k.permission in roles
  }

  /** A rule is relevant to an action when it names it (or `manage`). */
  predicate Covers(g: Grant, a: Action) {
    g.action == a || g.action == Manage
  }

  predicate Satisfies(b: Book, c: Conditions) {
    b.state == c.state && (c.userId.Some? ==> b.userId == c.userId)
  }

  predicate Permits(g: Grant, a: Action, b: Book) {
    Covers(g, a) && (g.conditions.None? || Satisfies(b, g.conditions.value))
  }

  /** Rule `i` of key `k` is the actor's and permits `a` on `b`. */
  predicate GrantedBy(roles: set<Permission>, actorId: Id, k: RoleKey, i: int, a: Action, b: Book) {
    HasKey(roles, k) && 0 <= i < |Rules(k, actorId)| && Permits(Rules(k, actorId)[i], a, b)
  }

  /** Rule `i` of key `k` is the actor's and is relevant to `a`. */
  predicate RelevantRule(roles: set<Permission>, actorId: Id, k: RoleKey, i: int, a: Action) {
    HasKey(roles, k) && 0 <= i < |Rules(k, actorId)| && Covers(Rules(k, actorId)[i], a)
  }

  /** The ability's decision on a book: some rule of the actor permits it. */
  predicate Can(roles: set<Permission>, actorId: Id, a: Action, b: Book) {
    exists k, i :: k in AllKeys && 0 <= i < |Rules(k, actorId)| && GrantedBy(roles, actorId, k, i, a, b)
  }

  /** The ability's decision on the subject type: some rule of the actor is
      relevant to the action, whatever its conditions. */
  predicate CanOnType(roles: set<Permission>, actorId: Id, a: Action) {
    exists k, i :: k in AllKeys && 0 <= i < |Rules(k, actorId)| && RelevantRule(roles, actorId, k, i, a)
  }

  /** Every rule of the actor relevant to the action has conditions (true
      when there is none). */
  predicate AllConditional(roles: set<Permission>, actorId: Id, a: Action) {
    forall k, i :: k in AllKeys && 0 <= i < |Rules(k, actorId)| && RelevantRule(roles, actorId, k, i, a) ==>
      Rules(k, actorId)[i].conditions.Some?
  }

  lemma GrantWitness(roles: set<Permission>, actorId: Id, k: RoleKey, i: int, a: Action, b: Book)
    requires GrantedBy(roles, actorId, k, i, a, b)
    ensures Can(roles, actorId, a, b)
  {
    EveryKeyListed(k);
  }

  lemma RuleWitness(roles: set<Permission>, actorId: Id, k: RoleKey, i: int, a: Action)
    requires RelevantRule(roles, actorId, k, i, a)
    ensures CanOnType(roles, actorId, a)
  {
    EveryKeyListed(k);
  }

  // ---------------------------------------------------------------- the table, stated per action

  /** The table read action by action. */
  predicate Expected(roles: set<Permission>, actorId: Id, a: Action, b: Book) {
    var own := b.state == DRAFT && b.userId == Some(actorId);
    match a
    case Read =>
      || b.state == VISIBLE || own
      || (b.state == UNAPPROVED && (APPROVE in roles || EDIT in roles))
      || (b.state == ARCHIVED && (ARCHIVE in roles || DELETE in roles))
    case Update => own || (EDIT in roles && (b.state == UNAPPROVED || b.state == VISIBLE))
    case Delete => own || (DELETE in roles && b.state == ARCHIVED)
    case Create => CREATE in roles
    case Approve => APPROVE in roles && b.state == UNAPPROVED
    case Archive => (ARCHIVE in roles || DELETE in roles) && b.state == VISIBLE
    case Unarchive => (ARCHIVE in roles || DELETE in roles) && b.state == ARCHIVED
    case Aggregate => false
    case Manage => false
  }

  /** The actions some rule of the actor names. */
  predicate ExpectedOnType(roles: set<Permission>, a: Action) {
    match a
    case Read => true
    case Update => true
    case Delete => true
    case Create => CREATE in roles
    case Approve => APPROVE in roles
    case Archive => ARCHIVE in roles || DELETE in roles
    case Unarchive => ARCHIVE in roles || DELETE in roles
    case Aggregate => false
    case Manage => false
  }

  /** Rule `i` of key `k`, if relevant to `a`, permits exactly what the
      action's row of the table says for the roles holding `k`. */
  lemma RuleInTable(roles: set<Permission>, actorId: Id, k: RoleKey, i: int, a: Action, b: Book)
    requires GrantedBy(roles, actorId, k, i, a, b)
    ensures Expected(roles, actorId, a, b)
  {
    match k
    case Everyone =>
    case Granted(p) =>
      if p == DELETE && i < 3 {
        assert Rules(k, actorId)[i] == ArchiveRules()[i];
      }
  }

  /** Every rule the actor holds permits only what the table says. */
  lemma {:induction false} CanSound(roles: set<Permission>, actorId: Id, a: Action, b: Book)
    requires Can(roles, actorId, a, b)
    ensures Expected(roles, actorId, a, b)
  {
    var k: RoleKey, i: int :| k in AllKeys && 0 <= i < |Rules(k, actorId)| && GrantedBy(roles, actorId, k, i, a, b);
    RuleInTable(roles, actorId, k, i, a, b);
  }

  /** Each `read` the table allows is permitted by some rule. */
  lemma {:induction false} ReadComplete(roles: set<Permission>, actorId: Id, b: Book)
    requires Expected(roles, actorId, Read, b)
    ensures Can(roles, actorId, Read, b)
  {
    var dk := Granted(DELETE);
    if b.state == VISIBLE { GrantWitness(roles, actorId, Everyone, 0, Read, b); }
    else if b.state == DRAFT && b.userId == Some(actorId) { GrantWitness(roles, actorId, Everyone, 1, Read, b); }
    else if b.state == UNAPPROVED && APPROVE in roles { GrantWitness(roles, actorId, Granted(APPROVE), 0, Read, b); }
    else if b.state == UNAPPROVED { GrantWitness(roles, actorId, Granted(EDIT), 0, Read, b); }
    else if ARCHIVE in roles { GrantWitness(roles, actorId, Granted(ARCHIVE), 0, Read, b); }
    else { assert Rules(dk, actorId)[0] == OnState(Read, ARCHIVED); GrantWitness(roles, actorId, dk, 0, Read, b); }
  }

  /** Each action other than `read` that the table allows is permitted by some rule. */
  lemma {:induction false} OtherComplete(roles: set<Permission>, actorId: Id, a: Action, b: Book)
    requires a != Read && Expected(roles, actorId, a, b)
    ensures Can(roles, actorId, a, b)
  {
    var own := b.state == DRAFT && b.userId == Some(actorId);
    var dk := Granted(DELETE);
    var ak := Granted(ARCHIVE);
    match a
    case Update =>
      if own { GrantWitness(roles, actorId, Everyone, 2, a, b); }
      else if b.state == UNAPPROVED { GrantWitness(roles, actorId, Granted(EDIT), 1, a, b); }
      else { GrantWitness(roles, actorId, Granted(EDIT), 2, a, b); }
    case Delete =>
      if own { GrantWitness(roles, actorId, Everyone, 3, a, b); }
      else { assert Rules(dk, actorId)[3] == OnState(Delete, ARCHIVED); GrantWitness(roles, actorId, dk, 3, a, b); }
    case Create =>
      GrantWitness(roles, actorId, Granted(CREATE), 0, a, b);
    case Approve =>
      GrantWitness(roles, actorId, Granted(APPROVE), 1, a, b);
    case Archive =>
      if ARCHIVE in roles { GrantWitness(roles, actorId, ak, 1, a, b); }
      else { assert Rules(dk, actorId)[1] == OnState(Archive, VISIBLE); GrantWitness(roles, actorId, dk, 1, a, b); }
    case Unarchive =>
      if ARCHIVE in roles { GrantWitness(roles, actorId, ak, 2, a, b); }
      else { assert Rules(dk, actorId)[2] == OnState(Unarchive, ARCHIVED); GrantWitness(roles, actorId, dk, 2, a, b); }
  }

  /** The grant table means what its rows say. */
  lemma {:induction false} CanTable(roles: set<Permission>, actorId: Id, a: Action, b: Book)
    ensures Can(roles, actorId, a, b) <==> Expected(roles, actorId, a, b)
  {
    if Can(roles, actorId, a, b) {
      CanSound(roles, actorId, a, b);
    }
    if Expected(roles, actorId, a, b) {
      if a == Read { ReadComplete(roles, actorId, b); } else { OtherComplete(roles, actorId, a, b); }
    }
  }

  /** Rule `i` of key `k`, if relevant to `a`, names an action the table
      lists for the roles holding `k`. */
  lemma RuleOnType(roles: set<Permission>, actorId: Id, k: RoleKey, i: int, a: Action)
    requires RelevantRule(roles, actorId, k, i, a)
    ensures ExpectedOnType(roles, a)
  {
    match k
    case Everyone =>
    case Granted(p) =>
      if p == DELETE && i < 3 {
        assert Rules(k, actorId)[i] == ArchiveRules()[i];
      }
  }

  /** Every relevant rule the actor holds names an action the table lists for its roles. */
  lemma {:induction false} CanOnTypeSound(roles: set<Permission>, actorId: Id, a: Action)
    requires CanOnType(roles, actorId, a)
    ensures ExpectedOnType(roles, a)
  {
    var k: RoleKey, i: int :| k in AllKeys && 0 <= i < |Rules(k, actorId)| && RelevantRule(roles, actorId, k, i, a);
    RuleOnType(roles, actorId, k, i, a);
  }

  /** The actions the actor has some rule for, read from the table. */
  lemma {:induction false} CanOnTypeTable(roles: set<Permission>, actorId: Id, a: Action)
    ensures CanOnType(roles, actorId, a) <==> ExpectedOnType(roles, a)
  {
    var dk := Granted(DELETE);
    var ak := Granted(ARCHIVE);
    if CanOnType(roles, actorId, a) {
      CanOnTypeSound(roles, actorId, a);
    }
    if ExpectedOnType(roles, a) {
      match a
      case Read => RuleWitness(roles, actorId, Everyone, 0, a);
      case Update => RuleWitness(roles, actorId, Everyone, 2, a);
      case Delete => RuleWitness(roles, actorId, Everyone, 3, a);
      case Create => RuleWitness(roles, actorId, Granted(CREATE), 0, a);
      case Approve => RuleWitness(roles, actorId, Granted(APPROVE), 1, a);
      case Archive =>
        if ARCHIVE in roles { RuleWitness(roles, actorId, ak, 1, a); }
        else { assert Rules(dk, actorId)[1] == OnState(Archive, VISIBLE); RuleWitness(roles, actorId, dk, 1, a); }
      case Unarchive =>
        if ARCHIVE in roles { RuleWitness(roles, actorId, ak, 2, a); }
        else { assert Rules(dk, actorId)[2] == OnState(Unarchive, ARCHIVED); RuleWitness(roles, actorId, dk, 2, a); }
    }
  }

  /** Only `create` has an unconditional rule, and only the CREATE role issues it. */
  lemma {:induction false} ConditionalTable(roles: set<Permission>, actorId: Id, a: Action)
    ensures AllConditional(roles, actorId, a) <==> !(a == Create && CREATE in roles)
  {
    if a == Create && CREATE in roles {
      RuleWitness(roles, actorId, Granted(CREATE), 0, a);
    }
    forall k, i | RelevantRule(roles, actorId, k, i, a) && a != Create
      ensures Rules(k, actorId)[i].conditions.Some?
    {
      if k == Granted(DELETE) && i < 3 {
        assert Rules(k, actorId)[i] == ArchiveRules()[i];
      }
    }
  }

  // ---------------------------------------------------------------- consequences

  /** Only `can` rules: holding more roles never turns an allow into a deny. */
  lemma Monotone(r1: set<Permission>, r2: set<Permission>, actorId: Id, a: Action, b: Book)
    requires r1 <= r2
    ensures Can(r1, actorId, a, b) ==> Can(r2, actorId, a, b)
    ensures CanOnType(r1, actorId, a) ==> CanOnType(r2, actorId, a)
  {
    if Can(r1, actorId, a, b) {
      var k: RoleKey, i: int :| k in AllKeys && 0 <= i < |Rules(k, actorId)| && GrantedBy(r1, actorId, k, i, a, b);
      assert GrantedBy(r2, actorId, k, i, a, b);
    }
    if CanOnType(r1, actorId, a) {
      var k: RoleKey, i: int :| k in AllKeys && 0 <= i < |Rules(k, actorId)| && RelevantRule(r1, actorId, k, i, a);
      assert RelevantRule(r2, actorId, k, i, a);
    }
  }

  /** DELETE's rules are ARCHIVE's rules followed by `delete` on ARCHIVED books. */
  lemma DeleteExtendsArchive(actorId: Id)
    ensures Rules(Granted(DELETE), actorId) == Rules(Granted(ARCHIVE), actorId) + [OnState(Delete, ARCHIVED)]
    ensures forall i :: 0 <= i < |Rules(Granted(ARCHIVE), actorId)| ==>
      ArchiveRules()[i] in Rules(Granted(DELETE), actorId)
  {
    var d := Rules(Granted(DELETE), actorId);
    forall i | 0 <= i < |Rules(Granted(ARCHIVE), actorId)|
      ensures ArchiveRules()[i] in d
    {
      assert d[i] == ArchiveRules()[i];
    }
  }

  /** DELETE in place of ARCHIVE: whatever an actor may do holding ARCHIVE,
      they may do holding DELETE instead, and the only thing DELETE adds is
      `delete` on ARCHIVED books. */
  lemma DeleteSubsumesArchive(roles: set<Permission>, actorId: Id, a: Action, b: Book)
    ensures Can(roles + {ARCHIVE}, actorId, a, b) ==> Can(roles + {DELETE}, actorId, a, b)
    ensures Can(roles + {DELETE}, actorId, a, b) && !Can(roles + {ARCHIVE}, actorId, a, b) ==>
      a == Delete && b.state == ARCHIVED
  {
    CanTable(roles + {ARCHIVE}, actorId, a, b);
    CanTable(roles + {DELETE}, actorId, a, b);
  }

  /** No role other than ADMIN lets an actor update an ARCHIVED book, or a
      DRAFT that is not the actor's own. */
  lemma NoUpdateOfArchivedOrForeignDraft(roles: set<Permission>, actorId: Id, b: Book)
    requires b.state == ARCHIVED || (b.state == DRAFT && b.userId != Some(actorId))
    ensures !Can(roles, actorId, Update, b)
  {
    CanTable(roles, actorId, Update, b);
  }

  /** The rules for everyone: read VISIBLE books, and read, update or delete
      the actor's own DRAFTs. */
  lemma EveryoneRules(actorId: Id, a: Action, b: Book)
    ensures Can({}, actorId, a, b) <==>
      || (a == Read && b.state == VISIBLE)
      || ((a == Read || a == Update || a == Delete) && b.state == DRAFT && b.userId == Some(actorId))
  {
    CanTable({}, actorId, a, b);
  }
}
