/** `MemberController`: the request handlers that drive the member service.
    Views are reduced to the outcome a handler reaches; the password gate
    of the profile update and the admin page request are pure decisions,
    the handlers that save, update or delete are methods on the service. */
module Controller {
  import opened Members
  import opened Service

  /** The outcome of a handler, in place of the view name it returns. */
  datatype View =
    | RegistrationForm(errorMessage: Option<Error>)  // "member/memberForm"
    | UpdateForm(reason: Error)                       // "member/memberUpdate" with an error
    | RedirectHome                                    // "redirect:/"
    | RedirectLogin                                   // "redirect:/members/login"
    | Raised(error: Error)                            // an exception leaves the handler

  /** What the profile-update gate decides: refuse with a message, or go on
      with the password field to submit. */
  datatype Gate = Refused(reason: Error) | Proceed(password: string)

  /** A new password counts as given when it is neither null nor empty. */
  predicate NewPasswordGiven(newPassword: Option<string>)
  {
    newPassword.Some? && newPassword.value != ""
  }

  /** The two checks of the profile update, in their order: the current
      password against the stored hash, then the new password against its
      confirmation; only then is a new password encoded. Otherwise the
      submitted password field goes through as it is. */
  function PasswordGate(encoder: PasswordEncoder, storedHash: string, submitted: string, currentPassword: string,
                        newPassword: Option<string>, confirmPassword: Option<string>): (g: Gate)
    ensures g == Refused(CurrentPasswordMismatch) <==> !encoder.matches(currentPassword, storedHash)
    ensures g == Refused(NewPasswordMismatch) <==>
              encoder.matches(currentPassword, storedHash) && NewPasswordGiven(newPassword) && confirmPassword != newPassword
    ensures g.Refused? ==> g.reason == CurrentPasswordMismatch || g.reason == NewPasswordMismatch
    ensures g.Proceed? ==> g.password == if NewPasswordGiven(newPassword) then encoder.encode(newPassword.value) else submitted
  {
    if !encoder.matches(currentPassword, storedHash) then Refused(CurrentPasswordMismatch)
    else if NewPasswordGiven(newPassword) then
      if Some(newPassword.value) != confirmPassword then Refused(NewPasswordMismatch)
      else Proceed(encoder.encode(newPassword.value))
    else Proceed(submitted)
  }

  /** The current-password check comes first: when it fails, no new
      password or confirmation changes the decision. */
  lemma CurrentPasswordCheckedFirst(encoder: PasswordEncoder, storedHash: string, submitted: string, currentPassword: string)
    requires !encoder.matches(currentPassword, storedHash)
    ensures forall n, c :: PasswordGate(encoder, storedHash, submitted, currentPassword, n, c) == Refused(CurrentPasswordMismatch)
  {
  }

  /** When the gate lets a new password through, the hash it submits
      verifies that new password and no other input of the gate matters
      but the new password. */
  lemma NewPasswordHashVerifies(encoder: PasswordEncoder, storedHash: string, submitted: string, currentPassword: string,
                                newPassword: string, confirmPassword: Option<string>)
    requires Sound(encoder) && newPassword != ""
    requires PasswordGate(encoder, storedHash, submitted, currentPassword, Some(newPassword), confirmPassword).Proceed?
    ensures confirmPassword == Some(newPassword)
    ensures encoder.matches(newPassword, PasswordGate(encoder, storedHash, submitted, currentPassword, Some(newPassword), confirmPassword).password)
  {
  }

  /** Page size of the admin member list. */
  const AdminPageSize: nat := 10

  /** `PageRequest`: a zero-based page index and a page size. */
  datatype PageRequest = PageRequest(page: nat, size: nat)

  /** `memberManage`'s page request: the given page, or page 0 when none
      is given, with 10 members per page; `PageRequest.of` refuses a
      negative page index. */
  function MemberManagePage(page: Option<int>): (r: Result<PageRequest>)
    ensures page.None? ==> r == Success(PageRequest(0, 10))
    ensures page.Some? && page.value >= 0 ==> r == Success(PageRequest(page.value, 10))
    ensures page.Some? && page.value < 0 ==> r == Failure(NegativePageIndex)
  {
    var index := if page.Some? then page.value else 0;
    if index < 0 then Failure(NegativePageIndex) else Success(PageRequest(index, AdminPageSize))
  }

  class MemberController {
    const service: MemberService
    const encoder: PasswordEncoder

    constructor (service: MemberService, encoder: PasswordEncoder)
      ensures this.service == service && this.encoder == encoder
    {
      this.service := service;
      this.encoder := encoder;
    }

    /** `newMember`: with binding errors, back to the form; otherwise create
        the member with a hashed password and save it, going back to the
        form with the duplicate error when the email is registered. */
    method NewMember(form: MemberForm, hasBindingErrors: bool) returns (v: View)
      requires service.Valid()
      modifies service
      ensures service.Valid()
      ensures hasBindingErrors ==> v == RegistrationForm(None) && service.State() == old(service.State())
      ensures !hasBindingErrors && EmailTaken(old(service.members), form.email) ==>
                v == RegistrationForm(Some(AlreadyRegistered)) && service.State() == old(service.State())
      ensures !hasBindingErrors && !EmailTaken(old(service.members), form.email) ==>
                v == RedirectHome && service.State() == Register(old(service.State()), CreateMember(form, encoder)).store
    {
      if hasBindingErrors {
        return RegistrationForm(None);
      }
      var member := CreateMember(form, encoder);
      var saved := service.SaveMember(member);
      if saved.Failure? {
        return RegistrationForm(Some(saved.error));
      }
      v := RedirectHome;
    }

    /** `updateMember`: look the member up by the submitted id, pass the
        password gate against the stored hash, put the gate's password into
        the submitted member, and hand it to the service's update. A refused
        gate returns to the form and changes nothing. */
    method UpdateMember(submitted: Member, currentPassword: string, newPassword: Option<string>, confirmPassword: Option<string>)
      returns (v: View)
      requires service.Valid()
      modifies service
      ensures service.Valid()
      ensures submitted.id !in old(service.members) ==> v == Raised(EntityNotFound) && service.State() == old(service.State())
      ensures submitted.id in old(service.members) ==>
                var g := PasswordGate(encoder, old(service.members)[submitted.id].password, submitted.password,
                                      currentPassword, newPassword, confirmPassword);
                && (g.Refused? ==> v == UpdateForm(g.reason) && service.State() == old(service.State()))
                && (g.Proceed? ==>
                      && v == RedirectHome
                      && service.State() == Update(old(service.State()), FormOf(submitted.(password := g.password))).store)
    {
      var existing := FindById(service.members, submitted.id);
      if existing.Failure? {
        return Raised(existing.error);
      }
      var gate := PasswordGate(encoder, existing.value.password, submitted.password,
                               currentPassword, newPassword, confirmPassword);
      if gate.Refused? {
        return UpdateForm(gate.reason);
      }
      var member := submitted.(password := gate.password);
      // The id was found above, so the service's update cannot fail here and
      // the handler's catch of IllegalArgumentException is never reached.
      var _ := service.UpdateMember(FormOf(member));
      v := RedirectHome;
    }

    /** `deleteMember`: remove the member (assumed remove-if-present) and
        send the client to the login page. */
    method DeleteMember(id: Id) returns (v: View)
      requires service.Valid()
      modifies service
      ensures service.Valid()
      ensures v == RedirectLogin
      ensures service.State() == Delete(old(service.State()), id)
    {
      service.DeleteMember(id);
      v := RedirectLogin;
    }
  }

  /** A profile update that passes the gate with a new password leaves
      a store in which `checkPassword` accepts the new password for that
      member. */
  lemma PasswordChangeTakesEffect(s: Store, encoder: PasswordEncoder, submitted: Member, currentPassword: string,
                                  newPassword: string)
    requires WellFormed(s) && Sound(encoder) && submitted.id in s.members && newPassword != ""
    requires encoder.matches(currentPassword, s.members[submitted.id].password)
    ensures var g := PasswordGate(encoder, s.members[submitted.id].password, submitted.password,
                                  currentPassword, Some(newPassword), Some(newPassword));
            && g == Proceed(encoder.encode(newPassword))
            && CheckPassword(Update(s, FormOf(submitted.(password := g.password))).store.members,
                             encoder, submitted.id, newPassword) == Success(true)
  {
  }
}
