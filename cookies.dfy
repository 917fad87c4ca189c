/** The fold of the browser's cookie list into the dictionary handed to the HTTP client. */
module Cookies {

  /** One cookie as the browser reports it; only its name and value are used. */
  datatype Cookie = Cookie(name: string, value: string)

  /** The cookie at index `i` is the last one in the list with its name. */
  ghost predicate LastWithName(cookies: seq<Cookie>, i: int)
    requires 0 <= i < |cookies|
  {
    forall j :: i < j < |cookies| ==> cookies[j].name != cookies[i].name
  }

  /**
   * `cookie_dict[cookie["name"]] = cookie["value"]` for every cookie in order:
   * the keys are exactly the names, and a repeated name keeps the value of
   * its last cookie.
   */
  method CookieDict(cookies: seq<Cookie>) returns (jar: map<string, string>)
    ensures forall name :: name in jar <==> exists i :: 0 <= i < |cookies| && cookies[i].name == name
    ensures forall i :: 0 <= i < |cookies| && LastWithName(cookies, i) ==>
      jar[cookies[i].name] == cookies[i].value
  {
    jar := map[];
    for n := 0 to |cookies|
      invariant forall name :: name in jar <==> exists i :: 0 <= i < n && cookies[i].name == name
      invariant forall i :: 0 <= i < n && LastWithName(cookies[..n], i) ==>
        jar[cookies[i].name] == cookies[i].value
    {
      jar := jar[cookies[n].name := cookies[n].value];
      assert forall i :: 0 <= i < n && LastWithName(cookies[..n + 1], i) ==> LastWithName(cookies[..n], i);
    }
    assert cookies[..|cookies|] == cookies;
  }
}
