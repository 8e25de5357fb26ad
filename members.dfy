/** Records of the member-management core: the persisted member, the form
    that carries its editable fields, the principal handed to the
    authentication layer, the password encoder the core is given, and the
    failures the core reports. */
module Members {

  datatype Option<+T> = None | Some(value: T)

  /** A value, or the failure the source raises (an exception in Java). */
  datatype Result<+T> = Success(value: T) | Failure(error: Error)

  /** One kind per exception type or error message of the source. */
  datatype Error =
    | AlreadyRegistered        // IllegalStateException from the duplicate-email check
    | NoSuchMember             // IllegalArgumentException from checkPassword
    | UsernameNotFound(email: string)  // UsernameNotFoundException(email)
    | EntityNotFound           // EntityNotFoundException from the id lookups
    | CurrentPasswordMismatch  // profile update: current password does not match
    | NewPasswordMismatch      // profile update: new password differs from its confirmation
    | NegativePageIndex        // PageRequest.of refuses a page index below zero

  /** The source uses `Long` for member ids in one place and `String` in
      another; the model uses one id type throughout. */
  type Id = nat

  datatype Role = USER | ADMIN

  /** The `Member` entity: one row of the member table. */
  datatype Member = Member(id: Id, email: string, password: string, name: string, address: string, role: Role)

  /** `MemberFormDto`: the fields a member edits, plus the id they belong to. */
  datatype MemberForm = MemberForm(id: Id, name: string, email: string, password: string, address: string)

  /** What `loadUserByUsername` hands to the authentication layer:
      user name (the email), stored password hash and role. */
  datatype Principal = Principal(username: string, password: string, role: Role)

  /** The foreign `PasswordEncoder`: `encode` hashes a raw password and
      `matches(raw, hash)` verifies a raw password against a stored hash.
      Both are left uninterpreted; `Sound` is the one property the core
      relies on. */
  datatype PasswordEncoder = PasswordEncoder(encode: string -> string, matches: (string, string) -> bool)

  /** The `PasswordEncoder` contract: a password verifies against its own hash. */
  ghost predicate Sound(encoder: PasswordEncoder)
  {
    forall raw: string :: encoder.matches(raw, encoder.encode(raw))
  }

  /** `Member.createMember(form, encoder)` (assumed; the entity is not part
      of this model): a new, not yet persisted member with the form's
      profile fields, the hash of the form's raw password and the default
      role USER. Its id is a placeholder; the store assigns the real one on
      save. */
  function CreateMember(form: MemberForm, encoder: PasswordEncoder): (m: Member)
    ensures m.email == form.email && m.name == form.name && m.address == form.address
    ensures m.password == encoder.encode(form.password) && m.role == USER
  {
    Member(0, form.email, encoder.encode(form.password), form.name, form.address, USER)
  }

  /** `member.updateMember(form)` (assumed; the entity is not part of this
      model): overwrite the editable fields; the id and the role are not
      editable. */
  function ApplyForm(member: Member, form: MemberForm): (updated: Member)
    ensures updated.id == member.id && updated.role == member.role
    ensures updated.email == form.email && updated.name == form.name
    ensures updated.password == form.password && updated.address == form.address
  {
    member.(email := form.email, name := form.name, password := form.password, address := form.address)
  }

  /** `MemberFormDto.of(member)` (assumed; the form class is not part of
      this model): copy the member's id, profile fields and stored password
      hash into a form. */
  function FormOf(member: Member): (form: MemberForm)
    ensures form.id == member.id && form.email == member.email && form.name == member.name
    ensures form.password == member.password && form.address == member.address
  {
    MemberForm(member.id, member.name, member.email, member.password, member.address)
  }

  /** The principal built from a member: email, stored hash, role. */
  function PrincipalOf(member: Member): (p: Principal)
  {
    Principal(member.email, member.password, member.role)
  }

  /** What a newly created member stores verifies its raw password, and it
      starts with role USER. */
  lemma CreatedMemberVerifies(form: MemberForm, encoder: PasswordEncoder)
    requires Sound(encoder)
    ensures encoder.matches(form.password, CreateMember(form, encoder).password)
    ensures CreateMember(form, encoder).role == USER
  {
  }

  /** Writing a member's own form back changes nothing. */
  lemma ApplyOwnForm(member: Member)
    ensures ApplyForm(member, FormOf(member)) == member
  {
  }

  /** Applying a form to the member it belongs to, then reading the form
      back, gives that form; id and role are kept. */
  lemma FormOfApplied(member: Member, form: MemberForm)
    requires form.id == member.id
    ensures FormOf(ApplyForm(member, form)) == form
    ensures ApplyForm(member, form).id == member.id && ApplyForm(member, form).role == member.role
  {
  }
}
