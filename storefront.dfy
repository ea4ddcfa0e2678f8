/**
 * The catalogue page (public/script.js) apart from its cart: the login form and
 * where it sends each role, the stored session, and the category/sort filter
 * state with the query parameters the product listing is fetched with.
 */
module Storefront {
  import opened Wrappers

  const FillAllFields: string := "Por favor, completa todos los campos"
  const UnknownRole: string := "Rol no reconocido"
  const LoginFailed: string := "Error al iniciar sesión"
  const ServerUnreachable: string := "Error de conexión con el servidor"

  /** The reply of /api/login: accepted with a token, refused with an optional message, or no reply. */
  datatype LoginReply =
    | Accepted(token: string, name: Option<string>, role: string)
    | Refused(message: Option<string>)
    | NoReply

  /** What the browser keeps after a successful login. */
  datatype Session = Session(token: string, userName: string, role: string)

  /** What the user sees: a redirect, or a message under the form. */
  datatype Shown = GoTo(page: string) | LoginMessage(text: string)

  datatype LoginResult = LoginResult(stored: Option<Session>, shown: Shown)

  /** The reply of /api/check-auth: the token is confirmed (with the name and role it belongs to) or not, or the request failed. */
  datatype AuthCheck =
    | Authenticated(name: Option<string>, role: string)
    | NotAuthenticated
    | CheckFailed

  /** The header's state after a check: the greeting (hidden when None) and whether the admin link shows. */
  datatype Header = Header(greeting: Option<string>, adminLink: bool)

  /** A query parameter of the product listing request. */
  datatype Param = Param(key: string, value: string)

  /** `x || fallback` for a string that may be missing or empty. */
  function OrElse(x: Option<string>, fallback: string): (r: string)
    ensures x.Some? && x.value != "" ==> r == x.value
    ensures x.None? || x == Some("") ==> r == fallback
  {
    if x.Some? && x.value != "" then x.value else fallback
  }

  /**
   * The login handler. Empty fields are refused before any request; otherwise an
   * accepted login stores the session and then routes by role.
   */
  function Login(email: string, password: string, reply: LoginReply): (r: LoginResult)
    ensures email == "" || password == "" ==> r == LoginResult(None, LoginMessage(FillAllFields))
    ensures r.stored.Some? <==> email != "" && password != "" && reply.Accepted?
    ensures r.shown == GoTo("/admin.html")
        <==> email != "" && password != "" && reply.Accepted? && reply.role == "admin"
    ensures r.shown == GoTo("/cliente.html")
        <==> email != "" && password != "" && reply.Accepted? && reply.role == "cliente"
    ensures r.stored.Some? && r.shown == LoginMessage(UnknownRole)
        <==> email != "" && password != "" && reply.Accepted? && reply.role != "admin" && reply.role != "cliente"
    ensures email != "" && password != "" && reply.Accepted? ==>
        r.stored == Some(Session(reply.token, OrElse(reply.name, "Cliente"), reply.role))
    ensures email != "" && password != "" && reply.Refused? ==>
        r == LoginResult(None, LoginMessage(OrElse(reply.message, LoginFailed)))
    ensures email != "" && password != "" && reply.NoReply? ==>
        r == LoginResult(None, LoginMessage(ServerUnreachable))
  {
    if email == "" || password == "" then LoginResult(None, LoginMessage(FillAllFields))
    else match reply
      case Accepted(token, name, role) =>
        var session := Session(token, OrElse(name, "Cliente"), role);
        var shown :=
          if role == "admin" then GoTo("/admin.html")
          else if role == "cliente" then GoTo("/cliente.html")
          else LoginMessage(UnknownRole);
        LoginResult(Some(session), shown)
      case Refused(message) => LoginResult(None, LoginMessage(OrElse(message, LoginFailed)))
      case NoReply => LoginResult(None, LoginMessage(ServerUnreachable))
  }

  /** With a field empty the server's reply plays no part: no request was made. */
  lemma EmptyFieldsNeverAsk(email: string, password: string, a: LoginReply, b: LoginReply)
    requires email == "" || password == ""
    ensures Login(email, password, a) == Login(email, password, b)
  {
  }

  /** A vendor signing in here is stored as signed in but not sent anywhere. */
  lemma VendorNotRouted(email: string, password: string, token: string, name: Option<string>)
    requires email != "" && password != ""
    ensures Login(email, password, Accepted(token, name, "vendedor")).shown == LoginMessage(UnknownRole)
    ensures Login(email, password, Accepted(token, name, "vendedor")).stored
         == Some(Session(token, OrElse(name, "Cliente"), "vendedor"))
  {
  }

  /** Position of each key in the fixed order search, category, sort. */
  function KeyRank(key: string): int {
    if key == "search" then 0 else if key == "category" then 1 else if key == "sort" then 2 else 3
  }

  /** The listing request's parameters: each of search, category, sort only when non-empty, in that order. */
  function QueryParams(query: string, category: string, sort: string): (ps: seq<Param>)
    ensures Param("search", query) in ps <==> query != ""
    ensures Param("category", category) in ps <==> category != ""
    ensures Param("sort", sort) in ps <==> sort != ""
    ensures |ps| == (if query != "" then 1 else 0) + (if category != "" then 1 else 0) + (if sort != "" then 1 else 0)
    ensures forall i, j :: 0 <= i < j < |ps| ==> KeyRank(ps[i].key) < KeyRank(ps[j].key)
    ensures forall i :: 0 <= i < |ps| ==> ps[i].value != "" && KeyRank(ps[i].key) < 3
  {
    (if query != "" then [Param("search", query)] else [])
    + (if category != "" then [Param("category", category)] else [])
    + (if sort != "" then [Param("sort", sort)] else [])
  }

  /** The page's filter state and stored session. */
  class Catalogue {
    var category: string
    var sort: string
    var session: Option<Session>

    /** A fresh page: all categories, newest first; the session is whatever was stored. */
    constructor (stored: Option<Session>)
      ensures category == "" && sort == "newest" && session == stored
    {
      category, sort, session := "", "newest", stored;
    }

    /** The login button: the session is replaced only when the login was accepted. */
    method SubmitLogin(email: string, password: string, reply: LoginReply) returns (shown: Shown)
      modifies this
      ensures var r := Login(email, password, reply);
        shown == r.shown && session == (if r.stored.Some? then r.stored else old(session))
      ensures category == old(category) && sort == old(sort)
    {
      var r := Login(email, password, reply);
      if r.stored.Some? {
        session := r.stored;
      }
      shown := r.shown;
    }

    /**
     * `checkAuth`, run when the page loads and after every accepted login: with no
     * stored token (or an empty one) the session is cleared without a request; a
     * confirmed token keeps the session, greets the user and shows the admin link to
     * admins only; an unconfirmed token or a failed request clears the session.
     * The filters are never touched.
     */
    method CheckAuth(reply: AuthCheck) returns (header: Header)
      modifies this
      ensures category == old(category) && sort == old(sort)
      ensures old(session).None? || old(session).value.token == "" ==> session == None && header == Header(None, false)
      ensures old(session).Some? && old(session).value.token != "" ==>
        if reply.Authenticated? then
          session == old(session)
          && header == Header(Some("Hola, " + OrElse(reply.name, "Usuario")), reply.role == "admin")
        else session == None && header == Header(None, false)
      ensures header.greeting.Some? ==> session.Some? && session == old(session)
    {
      if session.Some? && session.value.token != "" && reply.Authenticated? {
        header := Header(Some("Hola, " + OrElse(reply.name, "Usuario")), reply.role == "admin");
      } else {
        session := None;
        header := Header(None, false);
      }
    }

    /** The logout link: the session goes, the filters reset, and the listing reloads. */
    method Logout() returns (ps: seq<Param>)
      modifies this
      ensures session == None && category == "" && sort == "newest"
      ensures ps == [Param("sort", "newest")]
    {
      session := None;
      category, sort := "", "newest";
      ps := QueryParams("", category, sort);
    }

    /** The brand link: the filters reset and the listing reloads; the session stays. */
    method BrandLink() returns (ps: seq<Param>)
      modifies this
      ensures session == old(session) && category == "" && sort == "newest"
      ensures ps == [Param("sort", "newest")]
    {
      category, sort := "", "newest";
      ps := QueryParams("", category, sort);
    }

    /** A category link: its category (or all), no sort, and the search box's text. */
    method SelectCategory(link: Option<string>, searchText: string) returns (ps: seq<Param>)
      modifies this
      ensures session == old(session) && sort == ""
      ensures category == (if link.Some? then link.value else "")
      ensures ps == QueryParams(searchText, category, "")
      ensures forall i :: 0 <= i < |ps| ==> ps[i].key != "sort"
    {
      category := OrElse(link, "");
      sort := "";
      ps := QueryParams(searchText, category, sort);
    }

    /** Typing in the search box (text already trimmed) reloads with the current filters. */
    method Search(query: string) returns (ps: seq<Param>)
      ensures ps == QueryParams(query, category, sort)
    {
      ps := QueryParams(query, category, sort);
    }
  }
}
