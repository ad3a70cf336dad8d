/** The browser state the frontend reads and writes: the session and local
    storage areas, as maps from key to stored string. */
module Browser {
  import opened Strings

  type Storage = map<string, string>

  /** `storage.getItem(key)`: null when the key is absent. */
  function Item(s: Storage, key: string): Option<string> {
    if key in s then Some(s[key]) else None
  }

  /** `a || b` on two optional strings. */
  function Or(a: Option<string>, b: Option<string>): (r: Option<string>)
    ensures Truthy(r) <==> Truthy(a) || Truthy(b)
    ensures Truthy(a) ==> r == a
    ensures !Truthy(a) ==> r == b
  {
    if Truthy(a) then a else b
  }
}
