/**
 * The pieces of the web framework that the two controllers talk to: the
 * per-user session (a key/value store plus the one flash message of the
 * request), the cache, the user preferences, and the responses an action can
 * return. Only what the controllers observe is modelled.
 */
module Framework {

  datatype Option<+T> = None | Some(value: T)

  /** A value kept in the session: the boolean a "do again" submit writes, or a URL. */
  datatype Value = Flag(b: bool) | Text(url: string)

  type Store = map<string, Value>

  datatype FlashKind = Success | Error

  /** The one-shot notification shown on the next page. */
  datatype Flash = Flash(kind: FlashKind, message: string)

  /**
   * What an action returns: a rendered view, a redirect to a named route
   * (with an entity id for routes such as `categories.edit`, and whether the
   * submitted input is kept for repopulating the form), or a redirect to
   * whatever the session held under some key (`None` when it held nothing).
   */
  datatype Response =
    | View(name: string)
    | RedirectRoute(route: string, id: Option<nat>, withInput: bool)
    | RedirectTo(target: Option<Value>)

  /** `Session::get(key)`: the stored value, or nothing for a missing key. */
  function Lookup(m: Store, key: string): Option<Value>
  {
    if key in m then Some(m[key]) else None
  }

  /** `Session::get(key) === true`: the key is present and holds the boolean true (not merely a truthy value). */
  predicate IsTrue(m: Store, key: string)
  {
    Lookup(m, key) == Some(Flag(true))
  }

  /** HTML escaping (`e()`, `htmlentities`), taken as the identity. */
  function Escape(s: string): string
  {
    s
  }

  /** `part` occurs in `text` starting at index `i`. */
  predicate OccursAt(text: string, part: string, i: int)
  {
    0 <= i <= |text| - |part| && text[i..i + |part|] == part
  }

  /** `part` occurs somewhere inside `text`. */
  ghost predicate Contains(text: string, part: string)
  {
    exists i :: OccursAt(text, part, i)
  }

  /** A message built as prefix, name, suffix shows the name. */
  lemma ContainsMiddle(prefix: string, name: string, suffix: string)
    ensures Contains(prefix + name + suffix, name)
  {
    var text := prefix + name + suffix;
    assert OccursAt(text, name, |prefix|);
  }

  /** The session of the signed-in user. */
  class Session {
    var data: Store
    var flash: Option<Flash>

    constructor (data: Store)
      ensures this.data == data && flash == None
    {
      this.data := data;
      flash := None;
    }

    function Get(key: string): Option<Value>
      reads this
    {
      Lookup(data, key)
    }

    method Put(key: string, v: Value)
      modifies this
      ensures data == old(data)[key := v]
      ensures flash == old(flash)
    {
      data := data[key := v];
    }

    method Forget(key: string)
      modifies this
      ensures data == old(data) - {key}
      ensures flash == old(flash)
    {
      data := data - {key};
    }

    /** `Session::flash(kind, message)`: the request's single flash slot is overwritten. */
    method SetFlash(kind: FlashKind, message: string)
      modifies this
      ensures flash == Some(Flash(kind, message))
      ensures data == old(data)
    {
      flash := Some(Flash(kind, message));
    }
  }

  /** The application cache, as key/value entries. */
  class Cache {
    var entries: map<string, string>

    constructor (entries: map<string, string>)
      ensures this.entries == entries
    {
      this.entries := entries;
    }

    method Forget(key: string)
      modifies this
      ensures entries == old(entries) - {key}
    {
      entries := entries - {key};
    }
  }

  /** The user's stored preferences, by preference name. */
  class Preferences {
    var data: map<string, string>

    constructor (data: map<string, string>)
      ensures this.data == data
    {
      this.data := data;
    }

    /** Assigning the preference object's data and calling `save()`. */
    method Save(name: string, value: string)
      modifies this
      ensures data == old(data)[name := value]
    {
      data := data[name := value];
    }
  }
}
