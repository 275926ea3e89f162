/**
 * A reference reader for URL queries: the query is the text after the first
 * `?` and before any `#` (section 3.4 of RFC 3986), its fields are separated
 * by `&`, each field is split at its first `=`, and values are read with
 * `decodeURIComponent`.  A repeated name is read from its first field, and
 * `+` stays a plus sign; readers that keep the last copy or read `+` as a
 * space agree with this one on the opt-out address, whose field names differ
 * and whose encoded values hold no `+`.
 */
module QueryString {
  import opened Wrappers
  import opened UriComponent

  /** The first position of `c` in `s`. */
  function FirstIndexOf(s: string, c: char): (r: Option<nat>)
    ensures r.None? <==> c !in s
    ensures r.Some? ==> r.value < |s| && s[r.value] == c && c !in s[..r.value]
  {
    if |s| == 0 then None
    else if s[0] == c then Some(0)
    else match FirstIndexOf(s[1..], c)
      case None => None
      case Some(i) =>
        assert s[..i + 1] == [s[0]] + s[1..][..i];
        Some(i + 1)
  }

  /** `s` cut at every `sep`. */
  function Split(s: string, sep: char): (r: seq<string>)
    ensures |r| > 0
    decreases |s|
  {
    match FirstIndexOf(s, sep)
    case None => [s]
    case Some(i) => [s[..i]] + Split(s[i + 1..], sep)
  }

  /** The parts, with `sep` between each two. */
  function Join(parts: seq<string>, sep: char): string
    requires |parts| > 0
  {
    if |parts| == 1 then parts[0] else parts[0] + [sep] + Join(parts[1..], sep)
  }

  /** Splitting undoes joining parts that do not contain the separator. */
  lemma {:induction false} SplitJoin(parts: seq<string>, sep: char)
    requires |parts| > 0
    requires forall i :: 0 <= i < |parts| ==> sep !in parts[i]
    ensures Split(Join(parts, sep), sep) == parts
  {
    if |parts| > 1 {
      var head, tail := parts[0], parts[1..];
      assert parts == [head] + tail;
      assert Join(parts, sep) == head + [sep] + Join(tail, sep);
      assert sep !in head by {
        assert head == parts[0];
      }
      SplitAt(head, sep, Join(tail, sep));
      SplitJoin(tail, sep);
    }
  }

  /** Splitting at the first separator, when `a` holds none. */
  lemma SplitAt(a: string, sep: char, b: string)
    requires sep !in a
    ensures Split(a + [sep] + b, sep) == [a] + Split(b, sep)
  {
    var s := a + [sep] + b;
    assert s[|a|] == sep && s[..|a|] == a;
    assert FirstIndexOf(s, sep) == Some(|a|);
    assert s[|a| + 1..] == b;
  }

  /** A character in none of the parts, other than the separator, is not in the joined text. */
  lemma {:induction false} JoinAvoids(parts: seq<string>, sep: char, c: char)
    requires |parts| > 0 && c != sep
    requires forall i :: 0 <= i < |parts| ==> c !in parts[i]
    ensures c !in Join(parts, sep)
  {
    if |parts| > 1 {
      JoinAvoids(parts[1..], sep, c);
    }
  }

  /** The query of `url`: what follows the first `?` before the fragment. */
  function Query(url: string): Option<string> {
    var beforeFragment := match FirstIndexOf(url, '#') case None => url case Some(j) => url[..j];
    match FirstIndexOf(beforeFragment, '?')
    case None => None
    case Some(i) => Some(beforeFragment[i + 1..])
  }

  /** A field's name and raw value; a field without `=` has the empty value. */
  function Field(f: string): (string, string) {
    match FirstIndexOf(f, '=')
    case None => (f, "")
    case Some(i) => (f[..i], f[i + 1..])
  }

  /** The fields of a query, in order. */
  function Fields(query: string): (r: seq<(string, string)>)
    ensures |r| == |Split(query, '&')|
  {
    var parts := Split(query, '&');
    seq(|parts|, i requires 0 <= i < |parts| => Field(parts[i]))
  }

  /** The raw value of the first field named `name`. */
  function Lookup(fields: seq<(string, string)>, name: string): Option<string> {
    if |fields| == 0 then None
    else if fields[0].0 == name then Some(fields[0].1)
    else Lookup(fields[1..], name)
  }

  /** `Lookup` finds the field at `i` when no earlier field has that name. */
  lemma {:induction false} LookupFirst(fields: seq<(string, string)>, i: nat, name: string)
    requires i < |fields| && fields[i].0 == name
    requires forall j :: 0 <= j < i ==> fields[j].0 != name
    ensures Lookup(fields, name) == Some(fields[i].1)
  {
    if i > 0 {
      assert fields[0].0 != name;
      LookupFirst(fields[1..], i - 1, name);
    }
  }

  /** The decoded value of the first query field of `url` named `name`. */
  function QueryParam(url: string, name: string): Option<string> {
    match Query(url)
    case None => None
    case Some(q) =>
      match Lookup(Fields(q), name)
      case None => None
      case Some(raw) => DecodeURIComponent(raw)
  }

  /** `QueryParam` decodes what `Lookup` finds in the query's fields. */
  lemma ParamFromLookup(url: string, name: string)
    requires Query(url).Some? && Lookup(Fields(Query(url).value), name).Some?
    ensures QueryParam(url, name) == DecodeURIComponent(Lookup(Fields(Query(url).value), name).value)
  {}

  /** The query of `base + "?" + q` is `q` when neither holds a `#` and `base` holds no `?`. */
  lemma QueryAfter(base: string, q: string)
    requires '?' !in base && '#' !in base && '#' !in q
    ensures Query(base + "?" + q) == Some(q)
  {
    var url := base + "?" + q;
    assert '#' !in url by {
      forall k | 0 <= k < |url|
        ensures url[k] != '#'
      {
        if k < |base| {
          assert url[k] == base[k] && base[k] in base;
        } else if k > |base| {
          assert url[k] == q[k - |base| - 1] && q[k - |base| - 1] in q;
        }
      }
    }
    assert url[|base|] == '?' && url[..|base|] == base;
    assert FirstIndexOf(url, '?') == Some(|base|);
    assert url[|base| + 1..] == q;
  }

  /** A field written as `name=value`, with no `=` in the name, reads back as the pair. */
  lemma FieldOf(name: string, value: string)
    requires '=' !in name
    ensures Field(name + "=" + value) == (name, value)
  {
    var f := name + "=" + value;
    assert f[|name|] == '=' && f[..|name|] == name;
    assert FirstIndexOf(f, '=') == Some(|name|);
    assert f[|name| + 1..] == value;
  }
}
