/** The cookie values and the cookie jar the handlers receive and return (the `cookie` and `axum_extra` crates). */
module Cookies {
  import opened Wrappers

  /** The crate's `SameSite::{Strict, Lax, None}`; `Disabled` stands for `None`. */
  datatype SameSite = Strict | Lax | Disabled

  datatype Cookie = Cookie(name: string, value: string, path: Option<string>, httpOnly: Option<bool>, sameSite: Option<SameSite>)

  /** A jar holds at most one cookie per name; it is a value, each operation returns a new jar. */
  datatype CookieJar = CookieJar(cookies: map<string, Cookie>) {

    function Get(name: string): (r: Option<Cookie>)
      ensures r.Some? <==> name in cookies
      ensures r.Some? ==> r.value == cookies[name]
    {
      if name in cookies then Some(cookies[name]) else None
    }

    /** `jar.add(cookie)`: replaces the cookie of the same name. */
    function Add(c: Cookie): (r: CookieJar)
      ensures r.Get(c.name) == Some(c)
      ensures forall n :: n != c.name ==> r.Get(n) == Get(n)
    {
      CookieJar(cookies[c.name := c])
    }

    /** `jar.remove(name)`: afterwards the jar has no cookie of that name. */
    function Remove(name: string): (r: CookieJar)
      ensures r.Get(name) == None
      ensures forall n :: n != name ==> r.Get(n) == Get(n)
    {
      CookieJar(cookies - {name})
    }
  }
}
