/** Local schema references (libs/core/src/grafy_core/plugins.py:1090-1117): JSON Pointers
    in the sense of sections 3 and 4 of RFC 6901, restricted to object members. */
module JsonPointer {
  import opened Text
  import opened Json

  datatype RefError = Unresolvable | NotASchemaObject

  // ---------------------------------------------------------------- text operations

  function Split(s: string): (r: seq<string>)
    ensures |r| >= 1
  {
    if s == [] then [""]
    else if s[0] == '/' then [""] + Split(s[1..])
    else
      var rest := Split(s[1..]);
      [[s[0]] + rest[0]] + rest[1..]
  }

  /** Replaces every `~` followed by `digit`, left to right and without overlap. */
  function ReplaceTilde(s: string, digit: char, replacement: char): string {
    if s == [] then []
    else if |s| >= 2 && s[0] == '~' && s[1] == digit then [replacement] + ReplaceTilde(s[2..], digit, replacement)
    else [s[0]] + ReplaceTilde(s[1..], digit, replacement)
  }

  function Unescape(raw: string): string {
    ReplaceTilde(ReplaceTilde(raw, '1', '/'), '0', '~')
  }

  function Keys(raw: seq<string>): seq<string> {
    seq(|raw|, i requires 0 <= i < |raw| => Unescape(raw[i]))
  }

  predicate IsLocal(ref: string) { |ref| >= 2 && ref[0] == '#' && ref[1] == '/' }

  // ---------------------------------------------------------------- resolution

  /** Follows object members from a value. */
  function Lookup(value: Value, keys: seq<string>): Option<Value>
    decreases |keys|
  {
    if keys == [] then Some(value)
    else if value.Object? && keys[0] in value.fields then Lookup(value.fields[keys[0]], keys[1..])
    else None
  }

  function LocalRef(root: Fields, ref: string): Result<Fields, RefError>
    requires IsLocal(ref)
  {
    var found := Lookup(Object(root), Keys(Split(ref[2..])));
    if found.None? then Err(Unresolvable)
    else if !found.value.Object? then Err(NotASchemaObject)
    else Ok(found.value.fields)
  }

  lemma {:induction false} LookupStep(value: Value, keys: seq<string>, k: nat)
    requires k < |keys|
    ensures Lookup(value, keys[..k + 1]) ==
            var v := Lookup(value, keys[..k]);
            if v.Some? && v.value.Object? && keys[k] in v.value.fields then Some(v.value.fields[keys[k]]) else None
    decreases k
  {
    if k == 0 {
      assert keys[..1] == [keys[0]] && keys[..0] == [];
      assert [keys[0]][1..] == [];
    } else if value.Object? && keys[0] in value.fields {
      assert keys[..k + 1][1..] == keys[1..][..k] && keys[..k][1..] == keys[1..][..k - 1];
      LookupStep(value.fields[keys[0]], keys[1..], k - 1);
    }
  }

  lemma {:induction false} LookupStuck(value: Value, keys: seq<string>, k: nat)
    requires k <= |keys| && Lookup(value, keys[..k]).None?
    ensures Lookup(value, keys).None?
    decreases |keys| - k
  {
    if k == |keys| {
      assert keys[..k] == keys;
    } else {
      LookupStep(value, keys, k);
      LookupStuck(value, keys, k + 1);
    }
  }

  method ResolveLocalRef(root: Fields, ref: string) returns (r: Result<Fields, RefError>)
    requires IsLocal(ref)
    ensures r == LocalRef(root, ref)
  {
    var raw := Split(ref[2..]);
    var value := Object(root);
    ghost var keys := Keys(raw);
    for k := 0 to |raw|
      invariant Lookup(Object(root), keys[..k]) == Some(value)
    {
      LookupStep(Object(root), keys, k);
      var segment := Unescape(raw[k]);
      if !value.Object? || segment !in value.fields {
        LookupStuck(Object(root), keys, k + 1);
        return Err(Unresolvable);
      }
      value := value.fields[segment];
    }
    assert keys[..|raw|] == keys;
    if !value.Object? {
      return Err(NotASchemaObject);
    }
    return Ok(value.fields);
  }

  // ---------------------------------------------------------------- writing a reference

  /** Section 3 of RFC 6901: `~` is written `~0` and `/` is written `~1`. */
  function Escape(key: string): string {
    if key == [] then []
    else (if key[0] == '~' then "~0" else if key[0] == '/' then "~1" else [key[0]]) + Escape(key[1..])
  }

  /** The escaped key after only `~1` has been undone. */
  ghost function HalfEscape(key: string): string {
    if key == [] then [] else (if key[0] == '~' then "~0" else [key[0]]) + HalfEscape(key[1..])
  }

  lemma {:induction false} UndoSlash(key: string)
    ensures ReplaceTilde(Escape(key), '1', '/') == HalfEscape(key)
  {
    if key != [] {
      UndoSlash(key[1..]);
      var rest := Escape(key[1..]);
      if key[0] == '~' {
        assert Escape(key) == ['~'] + (['0'] + rest);
        assert Escape(key)[1..] == ['0'] + rest;
        assert (['0'] + rest)[1..] == rest;
      } else if key[0] == '/' {
        assert Escape(key)[2..] == rest;
      } else {
        assert Escape(key)[1..] == rest;
      }
    }
  }

  lemma {:induction false} UndoTilde(key: string)
    ensures ReplaceTilde(HalfEscape(key), '0', '~') == key
  {
    if key != [] {
      UndoTilde(key[1..]);
      var rest := HalfEscape(key[1..]);
      if key[0] == '~' {
        assert HalfEscape(key)[2..] == rest;
      } else {
        assert HalfEscape(key)[1..] == rest;
      }
    }
  }

  /** The order of the two replacements matters and is the right one. */
  lemma {:induction false} UnescapeInvertsEscape(key: string)
    ensures Unescape(Escape(key)) == key
  {
    UndoSlash(key);
    UndoTilde(key);
  }

  lemma {:induction false} EscapeHidesSlash(key: string)
    ensures '/' !in Escape(key)
  {
    if key != [] { EscapeHidesSlash(key[1..]); }
  }

  function Join(keys: seq<string>): string
    requires keys != []
  {
    if |keys| == 1 then Escape(keys[0]) else Escape(keys[0]) + "/" + Join(keys[1..])
  }

  lemma {:induction false} SplitPlain(s: string)
    requires '/' !in s
    ensures Split(s) == [s]
  {
    if s != [] {
      SplitPlain(s[1..]);
      assert s == [s[0]] + s[1..];
    }
  }

  lemma {:induction false} SplitFirst(s: string, rest: string)
    requires '/' !in s
    ensures Split(s + "/" + rest) == [s] + Split(rest)
  {
    if s == [] {
      assert s + "/" + rest == ['/'] + rest;
    } else {
      SplitFirst(s[1..], rest);
      assert (s + "/" + rest)[1..] == s[1..] + "/" + rest;
      assert s == [s[0]] + s[1..];
      assert ([s[1..]] + Split(rest))[1..] == Split(rest);
    }
  }

  lemma {:induction false} FirstKey(first: string, rest: seq<string>)
    ensures Keys([first] + rest) == [Unescape(first)] + Keys(rest)
  {
  }

  lemma {:induction false} SplitInvertsJoin(keys: seq<string>)
    requires keys != []
    ensures Keys(Split(Join(keys))) == keys
  {
    EscapeHidesSlash(keys[0]);
    UnescapeInvertsEscape(keys[0]);
    if |keys| == 1 {
      SplitPlain(Escape(keys[0]));
    } else {
      var rest := keys[1..];
      SplitFirst(Escape(keys[0]), Join(rest));
      SplitInvertsJoin(rest);
      FirstKey(Escape(keys[0]), Split(Join(rest)));
      assert keys == [keys[0]] + rest;
    }
  }

  /** Writing any non-empty key path as a reference and resolving it finds exactly the
      object at that path, and fails exactly when there is none. */
  lemma {:induction false} ReferenceRoundTrip(root: Fields, keys: seq<string>)
    requires keys != []
    ensures IsLocal("#/" + Join(keys))
    ensures LocalRef(root, "#/" + Join(keys)) ==
            var found := Lookup(Object(root), keys);
            if found.None? then Err(Unresolvable) else if !found.value.Object? then Err(NotASchemaObject) else Ok(found.value.fields)
  {
    assert ("#/" + Join(keys))[2..] == Join(keys);
    SplitInvertsJoin(keys);
  }
}
