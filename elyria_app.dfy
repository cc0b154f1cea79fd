/**
 * The pure helpers of the Elyria command line: the text shown for a stored
 * node, the one-line previews of `list` and `search`, the `--meta key=value`
 * parser of `new`, and the path of the lock file beside the node store.
 */
module ElyriaApp {
  import opened Base
  import opened Json
  import opened PyText

  // ---------------------------------------------------------------------------
  // Node text
  // ---------------------------------------------------------------------------

  /** The keys `_node_text` tries, in order. */
  const TextKeys: seq<string> := ["text", "content", "message", "prompt", "raw", "input"]

  /** What `_node_text` returns: the text itself, or the `json.dumps` / `str` rendering of the node. */
  datatype Rendered = Text(s: string) | JsonDump(v: Value) | Repr(v: Value)

  /** `isinstance(d.get(k), str) and d.get(k).strip()`. */
  predicate Usable(d: Record, k: string) {
    k in d && d[k].Str? && !IsBlank(d[k].s)
  }

  /** The value of the first key of `keys` that holds a non-blank string. */
  function FirstUsable(d: Record, keys: seq<string>): (r: Option<string>)
    ensures r.None? <==> forall i :: 0 <= i < |keys| ==> !Usable(d, keys[i])
    ensures r.Some? ==> exists i :: (0 <= i < |keys| && Usable(d, keys[i]) && r.value == d[keys[i]].s
      && forall j :: 0 <= j < i ==> !Usable(d, keys[j]))
    decreases |keys|
  {
    if keys == [] then None
    else if Usable(d, keys[0]) then Some(d[keys[0]].s)
    else
      var r := FirstUsable(d, keys[1..]);
      assert forall i :: 1 <= i < |keys| ==> keys[i] == keys[1..][i - 1];
      r
  }

  /** `_node_text`. */
  function NodeText(n: Value): (r: Rendered)
    ensures n.Str? ==> r == Text(n.s)
    ensures n.Obj? ==> (r.Text? <==> exists i :: 0 <= i < |TextKeys| && Usable(n.fields, TextKeys[i]))
    ensures n.Obj? && r.Text? ==> exists i :: (0 <= i < |TextKeys| && Usable(n.fields, TextKeys[i])
      && r.s == n.fields[TextKeys[i]].s && forall j :: 0 <= j < i ==> !Usable(n.fields, TextKeys[j]))
    ensures n.Obj? && !r.Text? ==> r == JsonDump(n)
    ensures !n.Str? && !n.Obj? ==> r == Repr(n)
  {
    match n
    case Str(s) => Text(s)
    case Obj(d) =>
      (match FirstUsable(d, TextKeys)
       case Some(s) => Text(s)
       case None => JsonDump(n))
    case _ => Repr(n)
  }

  /** A non-blank "text" field is shown whatever else the node holds. */
  lemma TextKeyWins(d: Record)
    requires Usable(d, "text")
    ensures NodeText(Obj(d)) == Text(d["text"].s)
  {
  }

  /** A blank or non-string "text" field falls through to "content". */
  lemma BlankTextFallsThrough(d: Record)
    requires !Usable(d, "text") && Usable(d, "content")
    ensures NodeText(Obj(d)) == Text(d["content"].s)
  {
    assert FirstUsable(d, TextKeys) == FirstUsable(d, TextKeys[1..]);
  }

  // ---------------------------------------------------------------------------
  // Previews
  // ---------------------------------------------------------------------------

  /** The node text on one line, stripped. */
  function OneLine(text: string): string {
    Strip(ReplaceChar(text, '\n', ' '))
  }

  /** The preview of `list` and `search`: one line, cut to `limit - 3` characters plus "..." when longer than `limit`. */
  function Preview(text: string, limit: int): (p: string)
    requires limit >= 3
    ensures |p| <= limit
    ensures '\n' !in p
    ensures |OneLine(text)| <= limit ==> p == OneLine(text)
    ensures |OneLine(text)| > limit ==>
      && |p| == limit
      && p[..limit - 3] == OneLine(text)[..limit - 3]
      && EndsWith(p, "...")
  {
    var r := ReplaceChar(text, '\n', ' ');
    var t := Strip(r);
    StripInfix(r);
    assert '\n' !in t;
    if |t| > limit then t[..limit - 3] + "..." else t
  }

  /** The preview `list` prints. */
  function ListPreview(text: string): (p: string)
    ensures |p| <= 120
    ensures |OneLine(text)| <= 120 ==> p == OneLine(text)
  {
    Preview(text, 120)
  }

  /** The preview `search` prints. */
  function SearchPreview(text: string): (p: string)
    ensures |p| <= 140
    ensures |OneLine(text)| <= 140 ==> p == OneLine(text)
  {
    Preview(text, 140)
  }

  /** A preview is its own preview. */
  lemma PreviewIdempotent(text: string, limit: int)
    requires limit >= 3
    ensures Preview(Preview(text, limit), limit) == Preview(text, limit)
  {
    var t := OneLine(text);
    var p := Preview(text, limit);
    assert ReplaceChar(p, '\n', ' ') == p;
    StripShape(ReplaceChar(text, '\n', ' '));
    if |t| <= limit {
      StripIdempotent(ReplaceChar(text, '\n', ' '));
    } else {
      assert p[|p| - 1] == '.';
      assert p[0] == if limit > 3 then t[0] else '.';
      assert StripLeft(p) == p;
      assert StripRight(p) == p;
    }
  }

  /** A single-line, already stripped text that fits is shown as it is. */
  lemma CleanTextUnchanged(text: string, limit: int)
    requires limit >= 3 && |text| <= limit
    requires '\n' !in text && Strip(text) == text
    ensures Preview(text, limit) == text
  {
    assert ReplaceChar(text, '\n', ' ') == text;
  }

  // ---------------------------------------------------------------------------
  // --meta parsing
  // ---------------------------------------------------------------------------

  /** A metadata value: the stripped right-hand side of `k=v`, or `True` for a bare key. */
  datatype MetaValue = MetaStr(s: string) | MetaTrue

  /** The index of the first "=" (what `split("=", 1)` cuts at). */
  function FirstEq(s: string): (i: nat)
    requires '=' in s
    ensures i < |s| && s[i] == '='
    ensures '=' !in s[..i]
    decreases |s|
  {
    if s[0] == '=' then 0
    else
      var i := 1 + FirstEq(s[1..]);
      assert s[..i] == [s[0]] + s[1..][..i - 1];
      i
  }

  /** The key and value one `--meta` item contributes. */
  function MetaEntry(item: string): (e: (string, MetaValue))
    ensures '=' in item <==> e.1.MetaStr?
    ensures '=' !in item ==> e == (Strip(item), MetaTrue)
  {
    if '=' in item then
      var i := FirstEq(item);
      (Strip(item[..i]), MetaStr(Strip(item[i + 1..])))
    else
      (Strip(item), MetaTrue)
  }

  /** A key never holds an "=": the bare item has none, and the left side stops before the first. */
  lemma MetaKeyHasNoEquals(item: string)
    ensures '=' !in MetaEntry(item).0
  {
    if '=' in item {
      StripInfix(item[..FirstEq(item)]);
    } else {
      StripInfix(item);
    }
  }

  /** `k=v` is cut at its first "=", and both sides are stripped. */
  lemma MetaEntrySplit(item: string, before: string, after: string)
    requires item == before + "=" + after && '=' !in before
    ensures MetaEntry(item) == (Strip(before), MetaStr(Strip(after)))
  {
    var i := FirstEq(item);
    assert item[|before|] == '=';
    assert item[..i] == before;
    assert item[i + 1..] == after;
  }

  /** `meta_obj` after the first items: each item overwrites its key. */
  function MetaOf(items: seq<string>): (meta: map<string, MetaValue>)
    ensures |meta.Keys| <= |items|
    decreases |items|
  {
    if items == [] then map[]
    else
      var e := MetaEntry(items[|items| - 1]);
      MetaOf(items[..|items| - 1])[e.0 := e.1]
  }

  /** The `--meta` loop of `new`. */
  method ParseMeta(items: seq<string>) returns (meta: map<string, MetaValue>)
    ensures meta == MetaOf(items)
  {
    meta := map[];
    for i := 0 to |items|
      invariant meta == MetaOf(items[..i])
    {
      assert items[..i + 1][..i] == items[..i];
      var item := items[i];
      if '=' in item {
        var k := FirstEq(item);
        meta := meta[Strip(item[..k]) := MetaStr(Strip(item[k + 1..]))];
      } else {
        meta := meta[Strip(item) := MetaTrue];
      }
    }
    assert items[..|items|] == items;
  }

  /** The position of an item that gave the key `k`. */
  lemma {:induction false} MetaKeySource(items: seq<string>, k: string) returns (i: nat)
    requires k in MetaOf(items)
    ensures i < |items| && MetaEntry(items[i]).0 == k
    decreases |items|
  {
    var n := |items| - 1;
    var init := items[..n];
    if MetaEntry(items[n]).0 == k {
      i := n;
    } else {
      i := MetaKeySource(init, k);
      assert items[i] == init[i];
    }
  }

  /** The key of every item is in the result. */
  lemma {:induction false} MetaKeyPresent(items: seq<string>, i: nat)
    requires i < |items|
    ensures MetaEntry(items[i]).0 in MetaOf(items)
    decreases |items|
  {
    var n := |items| - 1;
    var init := items[..n];
    var e := MetaEntry(items[n]);
    assert MetaOf(items) == MetaOf(init)[e.0 := e.1];
    if i < n {
      var key := MetaEntry(init[i]).0;
      MetaKeyPresent(init, i);
      assert key in MetaOf(init);
      assert items[i] == init[i];
    }
  }

  /** The keys of the result are exactly the keys of the items. */
  lemma MetaDomain(items: seq<string>, k: string)
    ensures k in MetaOf(items) <==> exists i :: 0 <= i < |items| && MetaEntry(items[i]).0 == k
  {
    if k in MetaOf(items) {
      var i := MetaKeySource(items, k);
    }
    if exists i :: 0 <= i < |items| && MetaEntry(items[i]).0 == k {
      var i :| 0 <= i < |items| && MetaEntry(items[i]).0 == k;
      MetaKeyPresent(items, i);
    }
  }

  /** An item that no later item overrides decides its key's value: the last duplicate wins. */
  lemma {:induction false} MetaLastWins(items: seq<string>, i: int)
    requires 0 <= i < |items|
    requires forall j :: i < j < |items| ==> MetaEntry(items[j]).0 != MetaEntry(items[i]).0
    ensures MetaEntry(items[i]).0 in MetaOf(items)
    ensures MetaOf(items)[MetaEntry(items[i]).0] == MetaEntry(items[i]).1
    decreases |items|
  {
    var n := |items| - 1;
    if i < n {
      var init := items[..n];
      assert forall j :: 0 <= j < n ==> init[j] == items[j];
      MetaLastWins(init, i);
    }
  }

  /** No key of `meta_obj` holds an "=". */
  lemma MetaKeysHaveNoEquals(items: seq<string>, k: string)
    requires k in MetaOf(items)
    ensures '=' !in k
  {
    MetaDomain(items, k);
    var i :| 0 <= i < |items| && MetaEntry(items[i]).0 == k;
    MetaKeyHasNoEquals(items[i]);
  }

  // ---------------------------------------------------------------------------
  // Lock file path
  // ---------------------------------------------------------------------------

  /** A filesystem path: its parent components and its final component (`Path.name`). */
  datatype Path = Path(parent: seq<string>, name: string)

  /** The index of the last occurrence of `c`, or -1 (`str.rfind`). */
  function RFind(s: string, c: char): (i: int)
    ensures -1 <= i < |s|
    ensures i >= 0 ==> s[i] == c && c !in s[i + 1..]
    ensures i == -1 <==> c !in s
    decreases |s|
  {
    if s == [] then -1
    else if s[|s| - 1] == c then |s| - 1
    else
      var i := RFind(s[..|s| - 1], c);
      assert s == s[..|s| - 1] + [s[|s| - 1]];
      if i >= 0 then assert s[i + 1..] == s[..|s| - 1][i + 1..] + [s[|s| - 1]]; i
      else i
  }

  /** `PurePath.suffix`: from the last "." on, unless that dot leads the name or ends it. */
  function Suffix(name: string): (suf: string)
    ensures suf == [] || (StartsWith(suf, ".") && |suf| >= 2)
    ensures |suf| <= |name| && suf == name[|name| - |suf|..]
    ensures suf != [] ==> '.' !in suf[1..] && |suf| < |name|
  {
    var i := RFind(name, '.');
    if 0 < i < |name| - 1 then
      assert name[i..][1..] == name[i + 1..];
      name[i..]
    else []
  }

  /** `PurePath.with_suffix`: replace the suffix, refusing a suffix with a separator, one not starting with ".", a lone ".", or an empty name. */
  function WithSuffix(p: Path, suffix: string): (r: Result<Path>)
    ensures r.Err? <==> '/' in suffix || (suffix != [] && !StartsWith(suffix, ".")) || suffix == "." || p.name == []
    ensures r.Ok? ==> (r.value.parent == p.parent
      && r.value.name == p.name[..|p.name| - |Suffix(p.name)|] + suffix)
  {
    if '/' in suffix then Err("ValueError")
    else if (suffix != [] && !StartsWith(suffix, ".")) || suffix == "." then Err("ValueError")
    else if p.name == [] then Err("ValueError")
    else
      var oldSuffix := Suffix(p.name);
      Ok(Path(p.parent, p.name[..|p.name| - |oldSuffix|] + suffix))
  }

  /** `_lockfile_for`; a path component never holds the separator. */
  function LockfileFor(store: Path): (r: Result<Path>)
    requires '/' !in store.name
    ensures r.Err? <==> store.name == []
    ensures r.Ok? ==> r.value == Path(store.parent, store.name + ".lock")
  {
    var suf := Suffix(store.name);
    var lock := suf + ".lock";
    assert lock[..1] == ".";
    assert lock != ".";
    var r := WithSuffix(store, lock);
    assert store.name[..|store.name| - |suf|] + suf == store.name;
    r
  }

  /** The lock file's own suffix is ".lock", whatever suffix the store had. */
  lemma LockSuffix(store: Path)
    requires '/' !in store.name && store.name != []
    ensures LockfileFor(store).Ok? && Suffix(LockfileFor(store).value.name) == ".lock"
  {
    var n := store.name + ".lock";
    var m := |store.name|;
    assert n[m] == '.';
    assert n[..|n| - 1][..|n| - 2] == n[..|n| - 2];
    assert RFind(n, '.') == m by {
      assert n[|n| - 1] == 'k';
      assert n[..|n| - 1][|n| - 2] == 'c';
      assert n[..|n| - 2][|n| - 3] == 'o';
      assert n[..|n| - 3][|n| - 4] == 'l';
      assert n[..|n| - 4][|n| - 5] == '.';
      assert n[..|n| - 1] == n[..|n| - 1];
      assert RFind(n[..m + 1], '.') == m;
      assert n[..m + 2][..m + 1] == n[..m + 1];
      assert n[..m + 3][..m + 2] == n[..m + 2];
      assert n[..m + 4][..m + 3] == n[..m + 3];
      assert n[..m + 5][..m + 4] == n[..m + 4];
      assert n[..m + 5] == n;
    }
    assert n[m..] == ".lock";
  }
}
