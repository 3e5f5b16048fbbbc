/** src/jsonlStore.ts: append-only files of JSON lines, replayed at start.

    A file is the sequence of its non-blank lines; a line either parses and
    revives, or it does not. An absent file is None. */
module JsonlStore {
  import opened Core

  datatype Line<+T> = Good(value: T) | Damaged

  type File<+T> = Option<seq<Line<T>>>

  function LinesOf<T>(file: File<T>): seq<Line<T>> {
    if file.None? then [] else file.value
  }

  /** appendJsonLine: creates the file when it is missing. */
  function Appended<T>(file: File<T>, v: T): File<T> {
    Some(LinesOf(file) + [Good(v)])
  }

  /** The values a file still holds: its good lines, in order. */
  function Parsed<T>(lines: seq<Line<T>>): seq<T> {
    if lines == [] then []
    else
      var rest := Parsed(lines[..|lines| - 1]);
      match lines[|lines| - 1]
      case Good(v) => rest + [v]
      case Damaged => rest
  }

  method RehydrateJsonLines<T>(file: File<T>) returns (results: seq<T>)
    ensures results == Parsed(LinesOf(file))
  {
    results := [];
    if file.None? {
      return;
    }
    var lines := file.value;
    for index := 0 to |lines|
      invariant results == Parsed(lines[..index])
    {
      assert lines[..index + 1][..index] == lines[..index];
      match lines[index] {
        case Good(v) => results := results + [v];
        case Damaged =>
      }
    }
    assert lines[..|lines|] == lines;
  }

  lemma ParsedAppend<T>(file: File<T>, v: T)
    ensures Parsed(LinesOf(Appended(file, v))) == Parsed(LinesOf(file)) + [v]
  {
    assert (LinesOf(file) + [Good(v)])[..|LinesOf(file)|] == LinesOf(file);
  }

  /** What a store holds after the saves vs: one Map.set each, in order. */
  function Replay<V>(vs: seq<V>, key: V -> string): (m: JsMap<V>)
    ensures m.Valid()
  {
    if vs == [] then EmptyMap()
    else
      var last := vs[|vs| - 1];
      var before := Replay(vs[..|vs| - 1], key);
      SetKeepsValid(before, key(last), last);
      before.Set(key(last), last)
  }

  lemma {:induction false} ReplayAppend<V>(vs: seq<V>, v: V, key: V -> string)
    ensures Replay(vs + [v], key) == Replay(vs, key).Set(key(v), v)
  {
    assert (vs + [v])[..|vs|] == vs;
  }

  ghost predicate Saved<V>(vs: seq<V>, key: V -> string, k: string) {
    exists i :: 0 <= i < |vs| && key(vs[i]) == k
  }

  /** The last value saved under k is the one at i. */
  ghost predicate LastSaved<V>(vs: seq<V>, key: V -> string, k: string, i: int) {
    0 <= i < |vs| && key(vs[i]) == k && forall j :: i < j < |vs| ==> key(vs[j]) != k
  }

  lemma SavedStep<V>(vs: seq<V>, key: V -> string, k: string)
    requires vs != []
    ensures Saved(vs, key, k) <==> Saved(vs[..|vs| - 1], key, k) || key(vs[|vs| - 1]) == k
  {
    var n := |vs| - 1;
    if Saved(vs[..n], key, k) {
      var i :| 0 <= i < n && key(vs[..n][i]) == k;
      assert key(vs[i]) == k;
    }
    if Saved(vs, key, k) {
      var i :| 0 <= i < |vs| && key(vs[i]) == k;
      assert i < n ==> key(vs[..n][i]) == k;
    }
  }

  /** Only saved keys are bound. */
  lemma {:induction false} ReplayBindsSavedKeys<V>(vs: seq<V>, key: V -> string, k: string)
    ensures k in Replay(vs, key).at <==> Saved(vs, key, k)
  {
    if vs != [] {
      ReplayBindsSavedKeys(vs[..|vs| - 1], key, k);
      SavedStep(vs, key, k);
    }
  }

  /** A key is bound to the value last saved under it. */
  lemma {:induction false} ReplayLastWriteWins<V>(vs: seq<V>, key: V -> string, k: string, i: int)
    requires LastSaved(vs, key, k, i)
    ensures k in Replay(vs, key).at && Replay(vs, key).at[k] == vs[i]
  {
    var n := |vs| - 1;
    if i < n {
      assert key(vs[n]) != k;
      assert vs[..n][i] == vs[i];
      assert forall j :: i < j < n ==> vs[..n][j] == vs[j];
      ReplayLastWriteWins(vs[..n], key, k, i);
    }
  }

  ghost predicate SavedFirst<V>(vs: seq<V>, key: V -> string, a: string, b: string) {
    exists i :: 0 <= i < |vs| && key(vs[i]) == a && forall j :: 0 <= j <= i ==> key(vs[j]) != b
  }

  /** Keys stand in the order of their first saves. */
  lemma {:induction false} ReplayFirstWriteOrders<V>(vs: seq<V>, key: V -> string, a: nat, b: nat)
    requires a < b < |Replay(vs, key).order|
    ensures SavedFirst(vs, key, Replay(vs, key).order[a], Replay(vs, key).order[b])
  {
    var n := |vs| - 1;
    var rest, before, m := vs[..n], Replay(vs[..n], key), Replay(vs, key);
    var ka, kb := m.order[a], m.order[b];
    var i: int;
    if b < |before.order| {
      ReplayFirstWriteOrders(rest, key, a, b);
      i :| 0 <= i < |rest| && key(rest[i]) == ka && forall j :: 0 <= j <= i ==> key(rest[j]) != kb;
    } else {
      assert ka in before.at && kb !in before.at;
      ReplayBindsSavedKeys(rest, key, ka);
      ReplayBindsSavedKeys(rest, key, kb);
      i :| 0 <= i < |rest| && key(rest[i]) == ka;
    }
    assert key(vs[i]) == ka;
    forall j | 0 <= j <= i
      ensures key(vs[j]) != kb
    {
      assert vs[j] == rest[j];
    }
  }

  /** The file a store leaves behind: each save appends what the store chooses
      to write, `persisted(v)`. */
  function FileAfter<V>(vs: seq<V>, persisted: V -> V): seq<Line<V>> {
    seq(|vs|, i requires 0 <= i < |vs| => Good(persisted(vs[i])))
  }

  function MapValues<V>(m: JsMap<V>, f: V -> V): JsMap<V> {
    JsMap(m.order, map k | k in m.at :: f(m.at[k]))
  }

  lemma MapValuesSet<V>(m: JsMap<V>, k: string, v: V, f: V -> V)
    ensures MapValues(m.Set(k, v), f) == MapValues(m, f).Set(k, f(v))
  {
  }

  lemma FileAfterSave<V>(vs: seq<V>, persisted: V -> V)
    requires vs != []
    ensures var n := |vs| - 1;
            && FileAfter(vs, persisted)[..n] == FileAfter(vs[..n], persisted)
            && Parsed(FileAfter(vs, persisted)) == Parsed(FileAfter(vs[..n], persisted)) + [persisted(vs[n])]
  {
    var n := |vs| - 1;
    assert FileAfter(vs, persisted)[..n] == FileAfter(vs[..n], persisted);
  }

  /** Restarting on an intact file gives back the same map in the same order,
      each value as it was written. */
  lemma {:induction false} RestartRebuilds<V>(vs: seq<V>, key: V -> string, persisted: V -> V)
    requires forall v {:trigger persisted(v)} :: key(persisted(v)) == key(v)
    ensures Replay(Parsed(FileAfter(vs, persisted)), key) == MapValues(Replay(vs, key), persisted)
  {
    if vs == [] {
      assert Parsed(FileAfter(vs, persisted)) == [];
    } else {
      var n := |vs| - 1;
      var rest, last := vs[..n], vs[n];
      RestartRebuilds(rest, key, persisted);
      FileAfterSave(vs, persisted);
      ReplayAppend(Parsed(FileAfter(rest, persisted)), persisted(last), key);
      MapValuesSet(Replay(rest, key), key(last), last, persisted);
    }
  }

  /** When the last line is damaged, the restart gives the state just before
      the last save. */
  lemma DamagedTailLosesOneSave<V>(vs: seq<V>, key: V -> string, persisted: V -> V)
    requires vs != []
    requires forall v {:trigger persisted(v)} :: key(persisted(v)) == key(v)
    ensures var n := |vs| - 1;
            Replay(Parsed(FileAfter(vs, persisted)[..n] + [Damaged]), key)
            == MapValues(Replay(vs[..n], key), persisted)
  {
    var n := |vs| - 1;
    var file := FileAfter(vs, persisted);
    FileAfterSave(vs, persisted);
    assert (file[..n] + [Damaged])[..n] == file[..n];
    RestartRebuilds(vs[..n], key, persisted);
  }
}
