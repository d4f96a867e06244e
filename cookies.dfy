/** The browser's cookie store as the auth code uses it: assignments to
    `document.cookie` with a `max-age` or a past `expires`, and the string
    `document.cookie` reads back ("name=value; name=value", in the order the
    cookies were first set). */
module Cookies {
  import opened Common

  datatype Cookie = Cookie(name: string, value: string, maxAge: int)

  /** A cookie name as the code writes them: non-empty, without `;`, `=` or
      whitespace. */
  predicate ValidName(name: string)
  {
    |name| > 0 && forall i :: 0 <= i < |name| ==> name[i] != ';' && name[i] != '=' && !IsSpace(name[i])
  }

  /** Lower-case letters and underscores make a valid name. */
  lemma SnakeCaseNameValid(name: string)
    requires |name| > 0 && forall i :: 0 <= i < |name| ==> 'a' <= name[i] <= 'z' || name[i] == '_'
    ensures ValidName(name)
  {
  }

  /** Distinct valid names, values without `;`. */
  predicate WellFormed(es: seq<Cookie>)
  {
    (forall i :: 0 <= i < |es| ==> ValidName(es[i].name) && ';' !in es[i].value)
    && (forall i, j :: 0 <= i < j < |es| ==> es[i].name != es[j].name)
  }

  /** The cookie of that name, if the store holds one. */
  function Lookup(es: seq<Cookie>, name: string): (r: Option<Cookie>)
    ensures r.Some? ==> r.value in es && r.value.name == name
    ensures r.None? ==> forall i :: 0 <= i < |es| ==> es[i].name != name
  {
    if |es| == 0 then None
    else if es[0].name == name then Some(es[0])
    else Lookup(es[1..], name)
  }

  /** Setting a cookie: an existing cookie of the name is replaced where it
      stands, a new one goes last. */
  function Assign(es: seq<Cookie>, c: Cookie): seq<Cookie>
  {
    if |es| == 0 then [c]
    else if es[0].name == c.name then [c] + es[1..]
    else [es[0]] + Assign(es[1..], c)
  }

  /** Expiring a cookie: it is dropped from the store. */
  function Remove(es: seq<Cookie>, name: string): seq<Cookie>
  {
    if |es| == 0 then []
    else if es[0].name == name then Remove(es[1..], name)
    else [es[0]] + Remove(es[1..], name)
  }

  /** The value `name=${raw}; path=/; ...` stores: `raw` up to its first `;`,
      where the attributes begin. */
  function StoredValue(raw: string): (v: string)
    ensures ';' !in v && StartsWith(raw, v)
    ensures ';' !in raw ==> v == raw
  {
    SplitFirstIsPrefix(raw, ';');
    if ';' !in raw then SplitWithoutSep(raw, ';'); raw else Split(raw, ';')[0]
  }

  /** One assignment with `max-age=maxAge`: a positive age sets the cookie,
      zero or less deletes it. */
  function Store(es: seq<Cookie>, name: string, raw: string, maxAge: int): seq<Cookie>
  {
    if maxAge > 0 then Assign(es, Cookie(name, StoredValue(raw), maxAge)) else Remove(es, name)
  }

  lemma {:induction false} AssignKeepsShape(es: seq<Cookie>, c: Cookie)
    requires WellFormed(es) && ValidName(c.name) && ';' !in c.value
    ensures WellFormed(Assign(es, c))
    ensures forall n :: Lookup(Assign(es, c), n) == if n == c.name then Some(c) else Lookup(es, n)
    ensures forall k :: k in Assign(es, c) ==> k == c || k in es
    decreases |es|
  {
    if |es| > 0 && es[0].name != c.name {
      TailWellFormed(es);
      AssignKeepsShape(es[1..], c);
      var r := Assign(es[1..], c);
      forall k | k in r ensures k.name != es[0].name {
        assert k == c || k in es[1..];
      }
    }
  }

  /** Dropping the first cookie keeps the store well formed. */
  lemma TailWellFormed(es: seq<Cookie>)
    requires WellFormed(es) && |es| > 0
    ensures WellFormed(es[1..])
  {
    var rest := es[1..];
    assert forall i :: 0 <= i < |rest| ==> rest[i] == es[i + 1];
  }

  lemma {:induction false} RemoveKeepsShape(es: seq<Cookie>, name: string)
    requires WellFormed(es)
    ensures WellFormed(Remove(es, name))
    ensures forall n :: Lookup(Remove(es, name), n) == if n == name then None else Lookup(es, n)
    ensures forall k :: k in Remove(es, name) ==> k in es
    decreases |es|
  {
    if |es| > 0 {
      TailWellFormed(es);
      RemoveKeepsShape(es[1..], name);
      if es[0].name != name {
        var r := Remove(es[1..], name);
        forall k | k in r ensures k.name != es[0].name {
          assert k in es[1..];
        }
      }
    }
  }

  /** What one assignment does to the store, read as a map from names. */
  lemma StoreEffect(es: seq<Cookie>, name: string, raw: string, maxAge: int)
    requires WellFormed(es) && ValidName(name)
    ensures WellFormed(Store(es, name, raw, maxAge))
    ensures maxAge > 0 ==> Lookup(Store(es, name, raw, maxAge), name) == Some(Cookie(name, StoredValue(raw), maxAge))
    ensures maxAge <= 0 ==> Lookup(Store(es, name, raw, maxAge), name).None?
    ensures forall n :: n != name ==> Lookup(Store(es, name, raw, maxAge), n) == Lookup(es, n)
  {
    if maxAge > 0 {
      AssignKeepsShape(es, Cookie(name, StoredValue(raw), maxAge));
    } else {
      RemoveKeepsShape(es, name);
    }
  }

  /** `name=value` */
  function Pair(c: Cookie): string
  {
    c.name + "=" + c.value
  }

  function Pairs(es: seq<Cookie>): (ps: seq<string>)
    ensures |ps| == |es|
    ensures forall i :: 0 <= i < |es| ==> ps[i] == Pair(es[i])
  {
    if |es| == 0 then [] else [Pair(es[0])] + Pairs(es[1..])
  }

  /** The string `document.cookie` reads. */
  function Serialize(es: seq<Cookie>): string
  {
    Join("; ", Pairs(es))
  }

  /** The pieces `split(';')` gives of a serialized store behind a prefix:
      the first pair carries the prefix, every later one a leading space. */
  function Spaced(lead: string, es: seq<Cookie>): (segs: seq<string>)
    ensures |segs| == |es|
    decreases |es|
  {
    if |es| == 0 then [] else [lead + Pair(es[0])] + Spaced(" ", es[1..])
  }

  lemma {:induction false} SplitJoined(lead: string, es: seq<Cookie>)
    requires |es| > 0 && ';' !in lead && WellFormed(es)
    ensures Split(lead + Serialize(es), ';') == Spaced(lead, es)
    decreases |es|
  {
    var p := Pair(es[0]);
    assert ';' !in p by {
      assert ';' !in es[0].name;
    }
    if |es| == 1 {
      assert Serialize(es) == p;
      SplitWithoutSep(lead + p, ';');
    } else {
      var rest := es[1..];
      assert Pairs(es)[1..] == Pairs(rest);
      assert WellFormed(rest) by {
        assert forall i :: 0 <= i < |rest| ==> rest[i] == es[i + 1];
      }
      assert lead + Serialize(es) == (lead + p) + [';'] + (" " + Serialize(rest));
      SplitAtFirst(lead + p, ';', " " + Serialize(rest));
      SplitJoined(" ", rest);
    }
  }

  /** Reading back the store: one piece per cookie, in order; an empty store
      reads as the single empty piece. */
  lemma DocumentCookieSegments(es: seq<Cookie>)
    requires WellFormed(es)
    ensures |es| == 0 ==> Split(Serialize(es), ';') == [""]
    ensures |es| > 0 ==> Split(Serialize(es), ';') == Spaced("", es)
  {
    if |es| > 0 {
      SplitJoined("", es);
      assert "" + Serialize(es) == Serialize(es);
    }
  }

  /** The page's cookie store. */
  class CookieJar {
    var entries: seq<Cookie>

    ghost predicate Valid()
      reads this
    {
      WellFormed(entries)
    }

    constructor (initial: seq<Cookie>)
      requires WellFormed(initial)
      ensures Valid() && entries == initial
    {
      entries := initial;
    }

    /** `document.cookie`, read. */
    function DocumentCookie(): string
      reads this
    {
      Serialize(entries)
    }

    /** `document.cookie = \`${name}=${raw}; path=/; max-age=${maxAge}; ...\`` */
    method Write(name: string, raw: string, maxAge: int)
      requires Valid() && ValidName(name)
      modifies this
      ensures Valid()
      ensures entries == Store(old(entries), name, raw, maxAge)
    {
      StoreEffect(entries, name, raw, maxAge);
      entries := Store(entries, name, raw, maxAge);
    }

    /** `document.cookie = \`${name}=; path=/; expires=Thu, 01 Jan 1970 00:00:00 GMT\`` */
    method Expire(name: string)
      requires Valid()
      modifies this
      ensures Valid()
      ensures entries == Remove(old(entries), name)
    {
      RemoveKeepsShape(entries, name);
      entries := Remove(entries, name);
    }
  }
}
