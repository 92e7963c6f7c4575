/** Cookie writes as the framework's response cookie store performs them: a response
    keeps one entry per cookie name, and `set(name, value, options)` replaces it. */
module Cookies {
  import opened Js

  /** Attributes handed through untouched (path, max-age, same-site, ...). */
  datatype CookieOptions = CookieOptions(attributes: map<string, string>)

  /** One `{ name, value, options }` write queued by the auth library. */
  datatype CookieMutation = CookieMutation(name: string, value: string, options: Option<CookieOptions>)

  datatype CookieEntry = CookieEntry(value: string, options: Option<CookieOptions>)

  /** The cookies a response will send, by name. */
  type Jar = map<string, CookieEntry>

  function EntryOf(m: CookieMutation): CookieEntry {
    CookieEntry(m.value, m.options)
  }

  /** `res.cookies.set(m.name, m.value, m.options)`. */
  function SetOne(jar: Jar, m: CookieMutation): (r: Jar)
    ensures r.Keys == jar.Keys + {m.name} && r[m.name] == EntryOf(m)
    ensures forall n :: n in jar && n != m.name ==> r[n] == jar[n]
  {
    jar[m.name := EntryOf(m)]
  }

  /** The writes of `ms` carried out one after another, first to last. */
  function SetInOrder(jar: Jar, ms: seq<CookieMutation>): Jar {
    if ms == [] then jar else SetOne(SetInOrder(jar, ms[..|ms| - 1]), ms[|ms| - 1])
  }

  /** A flattened `setAll` history: every mutation, in the order the library passed them. */
  function Flatten(batches: seq<seq<CookieMutation>>): (ms: seq<CookieMutation>)
    ensures batches == [] ==> ms == []
  {
    if batches == [] then [] else Flatten(batches[..|batches| - 1]) + batches[|batches| - 1]
  }

  /** The last write in `ms` to cookie `name`, if any. */
  function LastWrite(ms: seq<CookieMutation>, name: string): (r: Option<CookieMutation>)
    ensures r.Some? ==> r.value in ms && r.value.name == name
    ensures r.None? ==> forall i :: 0 <= i < |ms| ==> ms[i].name != name
  {
    if ms == [] then None
    else if ms[|ms| - 1].name == name then Some(ms[|ms| - 1])
    else LastWrite(ms[..|ms| - 1], name)
  }

  /** Later writes win: after the writes, a cookie holds its last write in `ms`, or, if
      `ms` never names it, whatever it held before. */
  lemma {:induction false} LastWriteWins(jar: Jar, ms: seq<CookieMutation>, name: string)
    ensures name in SetInOrder(jar, ms) <==> name in jar || LastWrite(ms, name).Some?
    ensures LastWrite(ms, name).Some? ==>
      SetInOrder(jar, ms)[name] == EntryOf(LastWrite(ms, name).value)
    ensures LastWrite(ms, name).None? && name in jar ==> SetInOrder(jar, ms)[name] == jar[name]
  {
    if ms != [] {
      LastWriteWins(jar, ms[..|ms| - 1], name);
    }
  }

  /** Writing `a` then `b` is writing `a + b`. */
  lemma {:induction false} SetInOrderAppend(jar: Jar, a: seq<CookieMutation>, b: seq<CookieMutation>)
    ensures SetInOrder(jar, a + b) == SetInOrder(SetInOrder(jar, a), b)
  {
    if b == [] {
      assert a + b == a;
    } else {
      SetInOrderAppend(jar, a, b[..|b| - 1]);
      assert (a + b)[..|a + b| - 1] == a + b[..|b| - 1];
    }
  }

  /** Replaying the same writes a second time changes nothing: each named cookie still
      holds the latest value once. */
  lemma SetInOrderIdempotent(jar: Jar, ms: seq<CookieMutation>)
    ensures SetInOrder(SetInOrder(jar, ms), ms) == SetInOrder(jar, ms)
  {
    var once := SetInOrder(jar, ms);
    var twice := SetInOrder(once, ms);
    forall n | true
      ensures n in twice <==> n in once
      ensures n in once ==> twice[n] == once[n]
    {
      LastWriteWins(jar, ms, n);
      LastWriteWins(once, ms, n);
    }
  }
}
