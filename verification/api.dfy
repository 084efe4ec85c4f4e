/** The boundary between the views and the remote API. The HTTP client
    itself is not part of this model: a view's handler produces the request
    it would send as a value, and the way the call settled comes back as an
    `Outcome`. Callbacks a handler invokes (the parent's `onSuccess`, a list
    `refresh`, navigation, logout, an alert box) are `Effect` values too. */
module Api {
  import opened Base
  import Decimal

  datatype Method = Post | Put | Delete

  /** Every request the modelled handlers can issue. */
  datatype Request =
    | CreatePassword(title: string, usernameOrEmail: string, password: string, forSection: string)
    | UpdatePassword(id: nat, title: string, usernameOrEmail: string, password: string, sectionId: nat)
    | CreateSection(name: string)
    | UpdateSection(id: nat, name: string)
    | UpdateProfile(username: string, email: string)
    | ChangePassword(oldPassword: string, newPassword: string)
    | DeleteAccount(confirm: string)
    | RecoverPassword(id: nat)

  /** The verb of each call: the two creations post, the account deletion
      deletes, and every update, the password change and the recover put. */
  function MethodOf(r: Request): (m: Method)
    ensures m == Post <==> r.CreatePassword? || r.CreateSection?
    ensures m == Delete <==> r.DeleteAccount?
  {
    match r
    case CreatePassword(_, _, _, _) => Post
    case CreateSection(_) => Post
    case DeleteAccount(_) => Delete
    case _ => Put
  }

  /** The URL a request is sent to, ids written in decimal. */
  function PathOf(r: Request): (p: string)
    ensures |p| > 5 && p[..5] == "/api/"
    ensures r.UpdatePassword? || r.UpdateSection? || r.RecoverPassword? ==>
      var n := |p| - |IdPrefix(r)|;
      n >= 1 && p[..|IdPrefix(r)|] == IdPrefix(r) && Decimal.AllDigits(p[|IdPrefix(r)|..])
  {
    match r
    case CreatePassword(_, _, _, _) => "/api/passwords"
    case UpdatePassword(id, _, _, _, _) => "/api/passwords/" + Decimal.Show(id)
    case CreateSection(_) => "/api/sections"
    case UpdateSection(id, _) => "/api/sections/" + Decimal.Show(id)
    case UpdateProfile(_, _) => "/api/profile"
    case ChangePassword(_, _) => "/api/profile/password"
    case DeleteAccount(confirm) => "/api/profile/me?confirm=" + confirm
    case RecoverPassword(id) => "/api/passwords/recover/" + Decimal.Show(id)
  }

  /** The part of an addressed request's URL before its id. */
  function IdPrefix(r: Request): string
    requires r.UpdatePassword? || r.UpdateSection? || r.RecoverPassword?
  {
    match r
    case UpdatePassword(_, _, _, _, _) => "/api/passwords/"
    case UpdateSection(_, _) => "/api/sections/"
    case RecoverPassword(_) => "/api/passwords/recover/"
  }

  /** The id an addressed request carries can be read back from its URL:
      the digits after the fixed prefix parse to it. */
  lemma IdReadsBackFromPath(r: Request)
    requires r.UpdatePassword? || r.UpdateSection? || r.RecoverPassword?
    ensures var p := PathOf(r);
      Decimal.AllDigits(p[|IdPrefix(r)|..]) && Decimal.Parse(p[|IdPrefix(r)|..]) == r.id
  {
    assert PathOf(r)[|IdPrefix(r)|..] == Decimal.Show(r.id);
    Decimal.ParseShow(r.id);
  }

  /** Requests of one kind that go to the same URL address the same record. */
  lemma PathDeterminesId(r1: Request, r2: Request)
    requires r1.UpdatePassword? || r1.UpdateSection? || r1.RecoverPassword?
    requires r2.UpdatePassword? || r2.UpdateSection? || r2.RecoverPassword?
    requires r1.UpdatePassword? == r2.UpdatePassword? && r1.UpdateSection? == r2.UpdateSection?
    ensures PathOf(r1) == PathOf(r2) ==> r1.id == r2.id
  {
    match r1
    case UpdatePassword(_, _, _, _, _) => Decimal.PrefixedShowInjective("/api/passwords/", r1.id, r2.id);
    case UpdateSection(_, _) => Decimal.PrefixedShowInjective("/api/sections/", r1.id, r2.id);
    case RecoverPassword(_) => Decimal.PrefixedShowInjective("/api/passwords/recover/", r1.id, r2.id);
  }

  /** How an issued call settled: a 2xx response, or a failure whose body
      may carry a `message`. */
  datatype Outcome = Succeeded | Failed(message: Option<string>)

  datatype Effect =
    | Send(request: Request)
    | OnSuccess
    | Refresh
    | NavigateTo(path: string)
    | Logout
    | Alert(text: string)

  /** The effects include issuing a request. */
  predicate Sends(effects: seq<Effect>) {
    exists i :: 0 <= i < |effects| && effects[i].Send?
  }
}
