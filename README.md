# Member accounts of lecture101, modelled in Dafny

This project models the member-management core of the lecture101 web
application: the member table behind `MemberService` and the profile-update,
registration and deletion handlers of `MemberController`.

- `members.dfy` (module `Members`) holds the records: `Member`, `MemberForm`
  (`MemberFormDto`), the `Principal` given to the authentication layer, the
  error kinds, and `PasswordEncoder`. The encoder is a pair of uninterpreted
  functions `encode` and `matches`. The core relies on one property of it,
  `Sound`: `matches(p, encode(p))` for every `p`. That is the standard
  `PasswordEncoder` contract; the model does not prove it.
- `member_service.dfy` (module `Service`) models the repository as a `Store`:
  a `map<Id, Member>` plus the next id to hand out. Pure functions give each
  operation's effect on the store. The class `MemberService` owns the table.
  Its methods `SaveMember`, `UpdateMember` and `DeleteMember` change it, each
  proved equal to its function. `LoadUserByUsername` only reads the table.
- `member_controller.dfy` (module `Controller`) models the handlers. Each
  view name becomes a `View` outcome. The profile-update checks are the pure
  function `PasswordGate`. The class `MemberController` drives the service.

Exceptions become `Failure` values of `Result`, one `Error` kind per
exception type: `IllegalStateException` on a duplicate email,
`IllegalArgumentException` from `checkPassword`,
`UsernameNotFoundException`, `EntityNotFoundException`. The two
error messages of the profile update are also `Error` kinds.

The source does not compile as written. The model follows the evident intent:

- Ids are `Long` in some places and `String` in others
  (service/MemberService.java:102, controller/MemberController.java:103,116).
  The model uses one id type, `Id = nat`.
- `encoder` is undeclared in `checkPassword`
  (service/MemberService.java:54). The model passes the same
  `PasswordEncoder` the controller uses.
- The controller passes a `Member` to `updateMember`
  (controller/MemberController.java:139), but the service takes a
  `MemberFormDto` (service/MemberService.java:88). The model passes the form
  of the submitted member, `FormOf(member)`, the model's assumed
  `MemberFormDto.of`.
- `deleteMember` is called but not defined in the service
  (controller/MemberController.java:152). It is ASSUMED to remove the member
  if present and otherwise do nothing.
- The `Member` entity and `MemberFormDto` are not part of this model, so three
  of their methods are assumed. `Member.createMember` (`CreateMember`) stores
  `encode(password)`, role USER and the form's email, name and address.
  `member.updateMember(dto)` (`ApplyForm`) overwrites email, name, address and
  password, and keeps id and role. `MemberFormDto.of` (`FormOf`) copies the
  id, email, name, address and the stored password hash into the form.

Other modelling choices:

- A member passed to `saveMember` is transient: its id is ignored, and the
  store assigns `nextId`, as the database's id generator would.
- In the profile update, the submitted member's password field is what the
  service writes. With no new password, that field goes through unchanged
  (controller/MemberController.java:128), so the stored hash becomes whatever
  the form carried. The form template is not part of this model.
- The `catch (IllegalArgumentException)` around the service update
  (controller/MemberController.java:140-144) is never reached in the model.
  The id was found just before, and a missing id raises
  `EntityNotFoundException`, not `IllegalArgumentException`.
- A failed lookup at controller/MemberController.java:116 is not caught. It
  becomes `Raised(EntityNotFound)`.

## Model

| member | source | states |
|---|---|---|
| `Members.CreateMember` | src/main/java/com/lecture101/controller/MemberController.java:56 | (assumed behaviour) the new member has the form's email, name and address, the encoded form password and role USER |
| `Members.ApplyForm` | src/main/java/com/lecture101/service/MemberService.java:94 | (assumed behaviour) id and role are kept; email, name, password and address are taken from the form |
| `Members.FormOf` | src/main/java/com/lecture101/service/MemberService.java:84 | (assumed behaviour) the form carries the member's id, email, name, address and stored password hash |
| `Members.CreatedMemberVerifies` | src/main/java/com/lecture101/controller/MemberController.java:56 | a created member stores a hash that verifies its raw password (given a sound encoder) and has role USER |
| `Members.ApplyOwnForm` | src/main/java/com/lecture101/service/MemberService.java:84 | writing a member's own detail form back changes nothing |
| `Members.FormOfApplied` | src/main/java/com/lecture101/service/MemberService.java:94 | applying a form to its member and reading the form back gives the form; id and role survive the update |
| `Service.ValidateDuplicateMember` | src/main/java/com/lecture101/service/MemberService.java:42-47 | fails with the duplicate error exactly when some stored member has the email |
| `Service.Register` | src/main/java/com/lecture101/service/MemberService.java:37-47 | fails exactly on a registered email and then leaves the store unchanged; otherwise stores exactly the given member under the id generator's next id, advances the generator, and returns the member, keeps every other record, keeps the store well formed and emails unique, and leaves the email registered either way |
| `Service.RegisterAllKeepsEmailsUnique` | src/main/java/com/lecture101/service/MemberService.java:37-47 | any sequence of registrations keeps emails unique and the store well formed |
| `Service.RegistrationsFromEmptyKeepEmailsUnique` | src/main/java/com/lecture101/service/MemberService.java:42-47 | starting from the empty store, any sequence of registrations leaves no two members with one email |
| `Service.FreedIdStaysFree` | src/main/java/com/lecture101/service/MemberService.java:37-40 | an unused id below the id generator is never handed out by any sequence of registrations |
| `Service.DeletedIdNeverReused` | src/main/java/com/lecture101/controller/MemberController.java:152 | after a member is deleted, no sequence of registrations hands its id out again |
| `Service.RegisterAllRegistersEveryEmail` | src/main/java/com/lecture101/service/MemberService.java:37-47 | after a sequence of registrations, every email that was attempted is registered |
| `Service.EmailStaysTaken` | src/main/java/com/lecture101/service/MemberService.java:37-40 | registrations never remove a registered email |
| `Service.CheckPassword` | src/main/java/com/lecture101/service/MemberService.java:50-56 | fails with the no-such-member error exactly when the id is unknown; otherwise returns exactly whether the candidate matches the stored hash, and only reads the table |
| `Service.FindById` | src/main/java/com/lecture101/service/MemberService.java:102-110 | fails with EntityNotFound exactly when the id is unknown, otherwise returns the stored member |
| `Service.GetMemberDtl` | src/main/java/com/lecture101/service/MemberService.java:80-86 | fails with EntityNotFound exactly when the id is unknown; otherwise the form carries that member's id and editable fields |
| `Service.Update` | src/main/java/com/lecture101/service/MemberService.java:88-99 | fails with EntityNotFound exactly when the id is unknown and then changes nothing; otherwise returns that id, replaces only that record by the form applied to it, keeps the set of ids and the id generator, and keeps the store well formed |
| `Service.UpdateWithOwnDetailIsIdentity` | src/main/java/com/lecture101/service/MemberService.java:80-99 | updating a member with its own detail form leaves the store unchanged |
| `Service.Delete` | src/main/java/com/lecture101/controller/MemberController.java:152 | (assumed behaviour) the id is absent afterwards, every other record is kept, ids are not reused, well-formedness and unique emails are kept |
| `Service.SignInIsDetermined` | src/main/java/com/lecture101/service/MemberService.java:59-72 | with unique emails, an email signs in as exactly one principal |
| `Service.RegisteredMemberSignsIn` | src/main/java/com/lecture101/service/MemberService.java:37-72 | registering a fresh email succeeds; then checkPassword accepts the raw password, and the email signs in only as (email, hash of the password, USER) |
| `Service.MemberService.SaveMember` | src/main/java/com/lecture101/service/MemberService.java:37-40 | the new table and the result are those of `Register`; the table stays well formed |
| `Service.MemberService.UpdateMember` | src/main/java/com/lecture101/service/MemberService.java:88-99 | the new table and the result are those of `Update`; the table stays well formed |
| `Service.MemberService.DeleteMember` | src/main/java/com/lecture101/controller/MemberController.java:152 | the new table is that of `Delete` (assumed behaviour) |
| `Service.MemberService.LoadUserByUsername` | src/main/java/com/lecture101/service/MemberService.java:59-72 | fails with UsernameNotFound(email) exactly when no member has the email; otherwise returns the principal (email, stored hash, role) of a member with that email |
| `Controller.PasswordGate` | src/main/java/com/lecture101/controller/MemberController.java:121-136 | refuses with the current-password error exactly when the current password does not match the stored hash; refuses with the mismatch error exactly when it matches but a non-empty new password differs from the confirmation; refuses with no other reason, so otherwise it proceeds and submits the encoded new password if one is given, else the submitted password field unchanged |
| `Controller.CurrentPasswordCheckedFirst` | src/main/java/com/lecture101/controller/MemberController.java:121-125 | when the current password does not match, no new password or confirmation changes the refusal |
| `Controller.NewPasswordHashVerifies` | src/main/java/com/lecture101/controller/MemberController.java:128-135 | a new password gets through only when it equals its confirmation, and the hash submitted verifies it |
| `Controller.MemberManagePage` | src/main/java/com/lecture101/controller/MemberController.java:80-82 | page 0 when no page is given, the given page otherwise, page size 10; a negative page index is refused |
| `Controller.MemberController.NewMember` | src/main/java/com/lecture101/controller/MemberController.java:48-64 | binding errors return to the form with nothing stored; a registered email returns to the form with the duplicate error and nothing stored; otherwise the created member is registered and the client is redirected home |
| `Controller.MemberController.UpdateMember` | src/main/java/com/lecture101/controller/MemberController.java:109-147 | an unknown id raises EntityNotFound and a refused gate returns to the form with its error, both leaving the store unchanged; otherwise the store is `Update` of the submitted member carrying the gate's password, and the client is redirected home |
| `Controller.MemberController.DeleteMember` | src/main/java/com/lecture101/controller/MemberController.java:150-161 | the member is deleted and the client is sent to the login page |
| `Controller.PasswordChangeTakesEffect` | src/main/java/com/lecture101/controller/MemberController.java:128-139 | with a matching current password and a confirmed new password, the gate submits `encode(newPassword)`, and afterwards checkPassword accepts the new password |

## Left out

- Spring MVC routing, view names and `Model` attributes are left out, including `maxPage`. A handler's outcome is the `View` value.
- `memberForm`, `loginMember` and `loginError` are left out. They only render a page and do no lookup.
- `showMyPage`, `showUpdateMemberForm` and `memberDtl` are left out. They only render a page around a lookup: `findByEmail` (which the service does not define), `FindById` and `GetMemberDtl`.
- Logging out through `SecurityContextHolder` and `SecurityContextLogoutHandler` after a deletion is left out. It is framework session state.
- The password hashing algorithm and its salt are left out. `encode` is a deterministic function here. Only `matches(p, encode(p))` is assumed, which holds for salted hashes too.
- `getAdminMemberPage` is left out. It delegates to a repository query whose filtering and ordering are not shown.
- The commented-out admin update handler is left out. It is dead code.
- `MemberRestController` is left out. It is a one-line delegation to `checkPassword` plus a console print.
- Transactions, JPA dirty checking and the database's unique constraint are left out. Every save is an explicit map update, and each operation is atomic.
- Email uniqueness on update is not modelled. `updateMember` does no duplicate check, so the model claims uniqueness only across registrations.
- Service.MemberService.LoadUserByUsername: when two members share an email, the model returns the principal of one of them. That is only possible after an update. Spring Data's single-result lookup would instead raise an error the source does not handle.
- Service.MemberService.LoadUserByUsername: a member with an empty email is accepted. Spring's `User` builder refuses an empty or null username, and the model does not. An empty password is accepted by both; a null one cannot occur in the model.
- Service.Register: when two members already share the email (possible only after an update), Spring Data's single-result `findByEmail` would raise a lookup error instead of `IllegalStateException`. The model refuses with `AlreadyRegistered` instead.
- Controller.MemberController.NewMember: in that same shared-email case, the source's lookup error is not the `IllegalStateException` the handler catches, so the handler would not return to the form. The model returns to the form with `AlreadyRegistered`.
- Null form fields are not modelled, and a null id cannot be expressed. In the source, the repository would reject a null id with its own exception. Form validation (`@Valid`) is the boolean `hasBindingErrors`.
- Integer widths are not modelled. Ids and the page index are unbounded integers, not `Long` or `Integer`.
- Negative ids are not modelled: `Id` is a natural number. A negative `Long` id from a path variable (controller/MemberController.java:102,151) cannot be expressed. The source would simply fail the lookup, because no member has a negative id.
- Emails are compared by exact, case-sensitive string equality, in `EmailTaken` and `SignsInAs`. The source leaves the comparison to the database's `findByEmail` query, whose collation is not part of this model.
- Service.CheckPassword: the model never proves that a wrong password is rejected. `Sound` only gives `matches(p, encode(p))`. That any other password fails is a property of the hashing algorithm, which is left out.
