/** Small value types shared by every component. */
module Core {

  datatype Option<+T> = None | Some(value: T)

  datatype Result<+T, +E> = Ok(value: T) | Err(error: E)

  function Max(a: int, b: int): int {
    if a >= b then a else b
  }

  /** A JavaScript Map with string keys: values by key, and the keys in the
      order in which they were first set. */
  datatype JsMap<V> = JsMap(order: seq<string>, at: map<string, V>) {

    ghost predicate Valid() {
      && (forall k :: k in at <==> k in order)
      && (forall i, j :: 0 <= i < j < |order| ==> order[i] != order[j])
    }

    /** Map.prototype.set: a new key goes last, an old key keeps its place. */
    function Set(k: string, v: V): JsMap<V> {
      JsMap(if k in at then order else order + [k], at[k := v])
    }

    function Get(k: string): Option<V> {
      if k in at then Some(at[k]) else None
    }

    /** Map.prototype.values */
    function Values(): seq<V>
      requires Valid()
    {
      seq(|order|, i requires 0 <= i < |order| => at[order[i]])
    }
  }

  function EmptyMap<V>(): JsMap<V> {
    JsMap([], map[])
  }

  lemma SetKeepsValid<V>(m: JsMap<V>, k: string, v: V)
    requires m.Valid()
    ensures m.Set(k, v).Valid()
  {
  }

  lemma {:induction false} ConcatAssociates<T>(a: seq<T>, b: seq<T>, c: seq<T>)
    ensures a + (b + c) == (a + b) + c
  {
  }

  /** JavaScript white space and line terminators. */
  predicate IsSpace(c: char) {
    var code := c as int;
    || 9 <= code <= 13 || code == 0x20 || code == 0xa0 || code == 0x1680 || 0x2000 <= code <= 0x200a
    || code == 0x2028 || code == 0x2029 || code == 0x202f || code == 0x205f || code == 0x3000 || code == 0xfeff
  }

  /** White space and line terminators as ECMA-262 lists them, one by one. */
  const WHITE_SPACE :=
    "\t\n\U{000B}\U{000C}\r \U{00A0}\U{1680}\U{2000}\U{2001}\U{2002}\U{2003}\U{2004}\U{2005}\U{2006}\U{2007}"
    + "\U{2008}\U{2009}\U{200A}\U{2028}\U{2029}\U{202F}\U{205F}\U{3000}\U{FEFF}"

  lemma {:induction false} SpaceIsListed(c: char)
    ensures IsSpace(c) <==> c in WHITE_SPACE
  {
    if IsSpace(c) {
      var code := c as int;
      var i := if code <= 13 then code - 9 else if code == 0x20 then 5 else if code == 0xa0 then 6
               else if code == 0x1680 then 7 else if code <= 0x200a then 8 + code - 0x2000
               else if code <= 0x2029 then 19 + code - 0x2028 else if code == 0x202f then 21
               else if code == 0x205f then 22 else if code == 0x3000 then 23 else 24;
      assert WHITE_SPACE[i] == c;
    }
  }

  /** s.trim().length === 0 */
  predicate Blank(s: string) {
    s == "" || (IsSpace(s[0]) && Blank(s[1..]))
  }

  /** Some character of it is ink. */
  ghost predicate Inked(s: string) {
    exists i :: 0 <= i < |s| && !IsSpace(s[i])
  }

  lemma {:induction false} BlankIffNoInk(s: string)
    ensures Blank(s) <==> !Inked(s)
  {
    if s != "" {
      BlankIffNoInk(s[1..]);
      assert forall i :: 0 < i < |s| ==> s[i] == s[1..][i - 1];
    }
  }
}
