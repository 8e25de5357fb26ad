/** `MemberService`: the member table and the operations over it.
    The table is a map from id to member; `nextId` is the store's id
    generator. The pure functions below say what each operation does to the
    table; the class `MemberService` holds the table and carries out the
    state-changing operations against them. */
module Service {
  import opened Members

  /** The repository's contents: the member table and the next id to hand out. */
  datatype Store = Store(members: map<Id, Member>, nextId: Id)

  /** The new store and the value or failure of one operation. */
  datatype Outcome<+T> = Outcome(store: Store, result: Result<T>)

  function EmptyStore(): (s: Store)
  {
    Store(map[], 0)
  }

  /** Every record sits under its own id, and every id in use is below the
      next one to hand out, so a handed-out id is never reused. */
  ghost predicate WellFormed(s: Store)
  {
    forall id :: id in s.members ==> s.members[id].id == id && id < s.nextId
  }

  /** Some member is registered with this email (`findByEmail(email) != null`). */
  predicate EmailTaken(members: map<Id, Member>, email: string)
  {
    exists id :: id in members && members[id].email == email
  }

  /** No two members share an email. */
  ghost predicate UniqueEmails(members: map<Id, Member>)
  {
    forall i, j :: i in members && j in members && members[i].email == members[j].email ==> i == j
  }

  /** `validateDuplicateMember`: fails exactly when the email is already registered. */
  function ValidateDuplicateMember(members: map<Id, Member>, member: Member): (r: Result<()>)
    ensures r.Failure? <==> exists id :: id in members && members[id].email == member.email
    ensures r.Failure? ==> r.error == AlreadyRegistered
  {
    if EmailTaken(members, member.email) then Failure(AlreadyRegistered) else Success(())
  }

  /** `saveMember`: the duplicate check, then an insert under a fresh id. */
  function Register(s: Store, member: Member): (o: Outcome<Member>)
    ensures o.result.Failure? <==> EmailTaken(s.members, member.email)
    ensures o.result.Failure? ==> o.result.error == AlreadyRegistered && o.store == s
    ensures o.result.Success? ==>
              var saved := o.result.value;
              && saved == member.(id := saved.id)
              && o.store.members == s.members[saved.id := saved]
              && (WellFormed(s) ==> saved.id !in s.members)
              && saved.id == s.nextId && o.store.nextId == s.nextId + 1
    ensures s.nextId <= o.store.nextId
    ensures EmailTaken(o.store.members, member.email)
    ensures WellFormed(s) ==> WellFormed(o.store) && s.members.Keys <= o.store.members.Keys
    ensures WellFormed(s) ==> forall id :: id in s.members ==> o.store.members[id] == s.members[id]
    ensures UniqueEmails(s.members) ==> UniqueEmails(o.store.members)
  {
    match ValidateDuplicateMember(s.members, member)
    case Failure(e) => Outcome(s, Failure(e))
    case Success(_) =>
      var saved := member.(id := s.nextId);
      assert s.members[s.nextId := saved][s.nextId].email == member.email;
      Outcome(Store(s.members[s.nextId := saved], s.nextId + 1), Success(saved))
  }

  /** `saveMember` called once per member of `ms`, in order; a call that
      fails leaves the store as it was. */
  function RegisterAll(s: Store, ms: seq<Member>): (t: Store)
    decreases |ms|
  {
    if ms == [] then s else RegisterAll(Register(s, ms[0]).store, ms[1..])
  }

  /** However many registrations are attempted, in whatever order, no two
      members end up with the same email, and the store stays well formed. */
  lemma {:induction false} RegisterAllKeepsEmailsUnique(s: Store, ms: seq<Member>)
    requires WellFormed(s) && UniqueEmails(s.members)
    ensures WellFormed(RegisterAll(s, ms)) && UniqueEmails(RegisterAll(s, ms).members)
    decreases |ms|
  {
    if ms != [] {
      RegisterAllKeepsEmailsUnique(Register(s, ms[0]).store, ms[1..]);
    }
  }

  /** Every email that was attempted is registered afterwards: a duplicate
      is refused only because its email is already there, and no
      registration removes or alters an existing record. */
  lemma {:induction false} RegisterAllRegistersEveryEmail(s: Store, ms: seq<Member>, k: nat)
    requires WellFormed(s) && k < |ms|
    ensures EmailTaken(RegisterAll(s, ms).members, ms[k].email)
    decreases |ms|
  {
    var next := Register(s, ms[0]).store;
    if k == 0 {
      EmailStaysTaken(next, ms[1..], ms[0].email);
    } else {
      RegisterAllRegistersEveryEmail(next, ms[1..], k - 1);
    }
  }

  /** A registered email stays registered through further registrations. */
  lemma {:induction false} EmailStaysTaken(s: Store, ms: seq<Member>, email: string)
    requires WellFormed(s) && EmailTaken(s.members, email)
    ensures EmailTaken(RegisterAll(s, ms).members, email)
    decreases |ms|
  {
    if ms != [] {
      var next := Register(s, ms[0]).store;
      var id :| id in s.members && s.members[id].email == email;
      assert next.members[id].email == email;
      EmailStaysTaken(next, ms[1..], email);
    }
  }

  /** A free id below the id generator stays free through any
      registrations: new ids are always taken from the generator. */
  lemma {:induction false} FreedIdStaysFree(s: Store, ms: seq<Member>, id: Id)
    requires WellFormed(s) && id !in s.members && id < s.nextId
    ensures id !in RegisterAll(s, ms).members && id < RegisterAll(s, ms).nextId
    decreases |ms|
  {
    if ms != [] {
      FreedIdStaysFree(Register(s, ms[0]).store, ms[1..], id);
    }
  }

  /** Ids are never reused: once a member is deleted, no later
      registration hands its id out again. */
  lemma DeletedIdNeverReused(s: Store, id: Id, ms: seq<Member>)
    requires WellFormed(s) && id in s.members
    ensures id !in RegisterAll(Delete(s, id), ms).members
  {
    FreedIdStaysFree(Delete(s, id), ms, id);
  }

  /** Registrations into the empty store never produce two members with one email. */
  lemma RegistrationsFromEmptyKeepEmailsUnique(ms: seq<Member>)
    ensures UniqueEmails(RegisterAll(EmptyStore(), ms).members)
  {
    RegisterAllKeepsEmailsUnique(EmptyStore(), ms);
  }

  /** `checkPassword`: a read that verifies a candidate against the stored hash. */
  function CheckPassword(members: map<Id, Member>, encoder: PasswordEncoder, id: Id, candidate: string): (r: Result<bool>)
    ensures r.Failure? <==> id !in members
    ensures r.Failure? ==> r.error == NoSuchMember
    ensures r.Success? ==> (r.value <==> encoder.matches(candidate, members[id].password))
  {
    if id !in members then Failure(NoSuchMember)
    else Success(encoder.matches(candidate, members[id].password))
  }

  /** `findById`: the member stored under the id, or `EntityNotFound`. */
  function FindById(members: map<Id, Member>, id: Id): (r: Result<Member>)
    ensures r.Failure? <==> id !in members
    ensures r.Failure? ==> r.error == EntityNotFound
    ensures r.Success? ==> r.value == members[id]
  {
    if id in members then Success(members[id]) else Failure(EntityNotFound)
  }

  /** `getMemberDtl`: the form showing the stored member, or `EntityNotFound`. */
  function GetMemberDtl(members: map<Id, Member>, id: Id): (r: Result<MemberForm>)
    ensures r.Failure? <==> id !in members
    ensures r.Failure? ==> r.error == EntityNotFound
    ensures r.Success? ==> r.value.id == members[id].id && ApplyForm(members[id], r.value) == members[id]
  {
    match FindById(members, id)
    case Failure(e) => Failure(e)
    case Success(member) => Success(FormOf(member))
  }

  /** `updateMember`: load by the form's id, overwrite the editable fields,
      save, and return the id. Email uniqueness is not re-checked. */
  function Update(s: Store, form: MemberForm): (o: Outcome<Id>)
    ensures o.result.Failure? <==> form.id !in s.members
    ensures o.result.Failure? ==> o.result.error == EntityNotFound && o.store == s
    ensures o.result.Success? ==>
              && o.result.value == form.id
              && o.store.nextId == s.nextId
              && o.store.members.Keys == s.members.Keys
              && o.store.members[form.id] == ApplyForm(s.members[form.id], form)
              && (forall id :: id in s.members && id != form.id ==> o.store.members[id] == s.members[id])
    ensures WellFormed(s) ==> WellFormed(o.store)
  {
    match FindById(s.members, form.id)
    case Failure(e) => Outcome(s, Failure(e))
    case Success(member) =>
      var updated := ApplyForm(member, form);
      Outcome(s.(members := s.members[form.id := updated]), Success(form.id))
  }

  /** Saving the detail form of a member back through `updateMember`
      leaves the store as it was. */
  lemma UpdateWithOwnDetailIsIdentity(s: Store, id: Id)
    requires WellFormed(s) && id in s.members
    ensures GetMemberDtl(s.members, id).Success?
    ensures Update(s, GetMemberDtl(s.members, id).value).store == s
  {
  }

  /** `deleteMember`, which the service does not define: assumed to remove
      the member if present and do nothing otherwise. */
  function Delete(s: Store, id: Id): (t: Store)
    ensures id !in t.members && t.nextId == s.nextId
    ensures t.members.Keys == s.members.Keys - {id}
    ensures forall k :: k in t.members ==> t.members[k] == s.members[k]
    ensures WellFormed(s) ==> WellFormed(t)
    ensures UniqueEmails(s.members) ==> UniqueEmails(t.members)
  {
    s.(members := s.members - {id})
  }

  /** The principals `loadUserByUsername` may return for an email: that of a
      member registered with it. */
  ghost predicate SignsInAs(members: map<Id, Member>, email: string, p: Principal)
  {
    exists id :: id in members && members[id].email == email && p == PrincipalOf(members[id])
  }

  /** With unique emails, an email signs in as exactly one principal. */
  lemma SignInIsDetermined(members: map<Id, Member>, email: string, p: Principal, q: Principal)
    requires UniqueEmails(members)
    requires SignsInAs(members, email, p) && SignsInAs(members, email, q)
    ensures p == q
  {
  }

  /** A member registered into a store with unique emails can sign in with
      the registered email, as a USER whose stored hash verifies the raw
      password, and `checkPassword` accepts that password. */
  lemma RegisteredMemberSignsIn(s: Store, form: MemberForm, encoder: PasswordEncoder)
    requires WellFormed(s) && UniqueEmails(s.members) && Sound(encoder)
    requires !EmailTaken(s.members, form.email)
    ensures var o := Register(s, CreateMember(form, encoder));
            && o.result.Success?
            && CheckPassword(o.store.members, encoder, o.result.value.id, form.password) == Success(true)
            && forall p :: SignsInAs(o.store.members, form.email, p) <==>
                             p == Principal(form.email, encoder.encode(form.password), USER)
  {
  }

  /** The service object: it owns the member table and the id generator,
      and changes them only through `saveMember`, `updateMember` and
      `deleteMember`. */
  class MemberService {
    var members: map<Id, Member>
    var nextId: Id

    function State(): Store
      reads this
    {
      Store(members, nextId)
    }

    ghost predicate Valid()
      reads this
    {
      WellFormed(State())
    }

    constructor ()
      ensures Valid() && State() == EmptyStore()
    {
      members := map[];
      nextId := 0;
    }

    /** `saveMember`: refuses a registered email and otherwise inserts the
        member under a fresh id and returns the saved record. */
    method SaveMember(member: Member) returns (r: Result<Member>)
      requires Valid()
      modifies this
      ensures Valid()
      ensures Outcome(State(), r) == Register(old(State()), member)
    {
      if EmailTaken(members, member.email) {
        r := Failure(AlreadyRegistered);
        return;
      }
      var saved := member.(id := nextId);
      members := members[nextId := saved];
      nextId := nextId + 1;
      r := Success(saved);
    }

    /** `updateMember`: loads the member by the form's id, overwrites its
        editable fields in place and saves it, returning its id. */
    method UpdateMember(form: MemberForm) returns (r: Result<Id>)
      requires Valid()
      modifies this
      ensures Valid()
      ensures Outcome(State(), r) == Update(old(State()), form)
    {
      var found := FindById(members, form.id);
      if found.Failure? {
        r := Failure(found.error);
        return;
      }
      var member := found.value;
      member := ApplyForm(member, form);
      members := members[member.id := member];
      r := Success(member.id);
    }

    /** `deleteMember` (assumed): removes the member if present. */
    method DeleteMember(id: Id)
      requires Valid()
      modifies this
      ensures Valid()
      ensures State() == Delete(old(State()), id)
    {
      members := members - {id};
    }

    /** `loadUserByUsername`: the principal of a member registered with the
        email, or `UsernameNotFound`. Reads the table and changes nothing. */
    method LoadUserByUsername(email: string) returns (r: Result<Principal>)
      ensures r.Failure? <==> !EmailTaken(members, email)
      ensures r.Failure? ==> r.error == UsernameNotFound(email)
      ensures r.Success? ==> SignsInAs(members, email, r.value)
    {
      if !EmailTaken(members, email) {
        r := Failure(UsernameNotFound(email));
        return;
      }
      var id :| id in members && members[id].email == email;
      r := Success(PrincipalOf(members[id]));
    }
  }
}
