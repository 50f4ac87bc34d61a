/** The class-string idiom both components use, `[...].filter(Boolean).join(" ")`,
    and the way the DOM splits a class attribute into class names at ASCII white
    space. (`element.classList` then drops repeated names; membership is the same.) */
module ClassNames {
  import opened Common

  /** JavaScript truthiness of a class-list entry. `None` stands for `undefined`
      and for the `false` that `flag && styles.x` yields when the flag is off. */
  predicate Truthy(entry: Option<string>) {
    entry.Some? && entry.value != ""
  }

  /** What one entry contributes after `filter(Boolean)`. */
  function Present(entry: Option<string>): seq<string> {
    if Truthy(entry) then [entry.value] else []
  }

  /** `entries.filter(Boolean)`: the truthy entries, in order. */
  function Compact(entries: seq<Option<string>>): (r: seq<string>)
    ensures |r| <= |entries|
  {
    if entries == [] then [] else Present(entries[0]) + Compact(entries[1..])
  }

  /** The filtered list holds exactly the non-empty strings among the entries. */
  lemma {:induction false} CompactMembers(entries: seq<Option<string>>, x: string)
    ensures x in Compact(entries) <==> Some(x) in entries && x != ""
  {
    if entries != [] {
      CompactMembers(entries[1..], x);
      assert entries == [entries[0]] + entries[1..];
    }
  }

  /** `parts.join(" ")` */
  function Join(parts: seq<string>): string {
    if parts == [] then ""
    else if |parts| == 1 then parts[0]
    else parts[0] + " " + Join(parts[1..])
  }

  /** The class attribute that `entries.filter(Boolean).join(" ")` builds. */
  function ClassList(entries: seq<Option<string>>): string {
    Join(Compact(entries))
  }

  /** The characters that separate class names in a class attribute (ASCII whitespace). */
  predicate IsClassSeparator(c: char) {
    c == ' ' || c == '\t' || c == '\n' || c == '\r' || c as int == 0x0C
  }

  /** `s` is a single class name or empty: it holds no separator. */
  predicate NoSeparator(s: string) {
    forall i :: 0 <= i < |s| ==> !IsClassSeparator(s[i])
  }

  /** Every class name a CSS module exports is a single class token. */
  predicate ClassNamesAreTokens(styles: Styles) {
    forall k :: k in styles ==> NoSeparator(styles[k])
  }

  /** The leading class name of `s`: its longest prefix without a separator. */
  function Word(s: string): (w: string)
    ensures |w| <= |s| && w == s[..|w|]
    ensures s != [] && !IsClassSeparator(s[0]) ==> |w| > 0
  {
    if s == [] || IsClassSeparator(s[0]) then [] else [s[0]] + Word(s[1..])
  }

  /** The class attribute split at ASCII white space, empty pieces dropped and
      repeats kept (`element.classList` is this list with repeats dropped). */
  function Tokens(s: string): seq<string>
    decreases |s|
  {
    if s == [] then []
    else if IsClassSeparator(s[0]) then Tokens(s[1..])
    else var w := Word(s); [w] + Tokens(s[|w|..])
  }

  /** `element.classList.contains(c)` */
  predicate HasClass(classAttribute: string, c: string) {
    c in Tokens(classAttribute)
  }

  /** A class name followed by a separator (or nothing) is read as one word. */
  lemma {:induction false} WordOfName(w: string, t: string)
    requires NoSeparator(w)
    requires t == [] || IsClassSeparator(t[0])
    ensures Word(w + t) == w
  {
    if w == [] {
      assert w + t == t;
    } else {
      assert (w + t)[0] == w[0];
      assert (w + t)[1..] == w[1..] + t;
      WordOfName(w[1..], t);
    }
  }

  /** A class name followed by a separator (or nothing) is read as one token. */
  lemma TokensOfName(w: string, t: string)
    requires w != [] && NoSeparator(w)
    requires t == [] || IsClassSeparator(t[0])
    ensures Tokens(w + t) == [w] + Tokens(t)
  {
    WordOfName(w, t);
    assert (w + t)[|w|..] == t;
  }

  /** A leading separator contributes no token. */
  lemma TokensAfterSpace(t: string)
    ensures Tokens(" " + t) == Tokens(t)
  {
    assert (" " + t)[1..] == t;
  }

  /** `join(" ")` is undone by reading the tokens back, when every part is one
      non-empty class name. */
  lemma {:induction false} TokensOfJoin(parts: seq<string>)
    requires forall i :: 0 <= i < |parts| ==> parts[i] != "" && NoSeparator(parts[i])
    ensures Tokens(Join(parts)) == parts
  {
    if parts == [] {
    } else if |parts| == 1 {
      TokensOfName(parts[0], []);
      assert parts[0] + [] == parts[0];
    } else {
      var rest := Join(parts[1..]);
      assert parts[0] + " " + rest == parts[0] + (" " + rest);
      TokensOfName(parts[0], " " + rest);
      TokensAfterSpace(rest);
      TokensOfJoin(parts[1..]);
    }
  }

  /** A class list splits into exactly its truthy entries, in order, when no
      entry holds a separator. */
  lemma TokensOfClassList(entries: seq<Option<string>>)
    requires forall e :: e in entries && e.Some? ==> NoSeparator(e.value)
    ensures Tokens(ClassList(entries)) == Compact(entries)
  {
    var parts := Compact(entries);
    forall i | 0 <= i < |parts|
      ensures parts[i] != "" && NoSeparator(parts[i])
    {
      assert parts[i] in parts;
      CompactMembers(entries, parts[i]);
    }
    TokensOfJoin(parts);
  }

  /** `filter(Boolean)` on a list with a first entry. */
  lemma CompactCons(e: Option<string>, rest: seq<Option<string>>)
    ensures Compact([e] + rest) == Present(e) + Compact(rest)
  {
    assert ([e] + rest)[1..] == rest;
  }

  /** `filter(Boolean)` on a two-entry list, entry by entry. */
  lemma CompactTwo(a: Option<string>, b: Option<string>)
    ensures Compact([a, b]) == Present(a) + Present(b)
  {
    CompactCons(a, [b]);
    CompactCons(b, []);
    assert [a, b] == [a] + [b];
    assert [b] == [b] + [];
  }

  /** `filter(Boolean)` on a five-entry list, entry by entry. */
  lemma CompactFive(a: Option<string>, b: Option<string>, c: Option<string>,
                    d: Option<string>, e: Option<string>)
    ensures Compact([a, b, c, d, e])
            == Present(a) + (Present(b) + (Present(c) + (Present(d) + Present(e))))
  {
    var tail := [b, c, d, e];
    CompactCons(a, tail);
    assert [a, b, c, d, e] == [a] + tail;
    CompactCons(b, tail[1..]);
    assert tail == [b] + tail[1..];
    CompactCons(c, tail[2..]);
    assert tail[1..] == [c] + tail[2..];
    CompactTwo(d, e);
    assert tail[2..] == [d, e];
  }

  /** A truthy last entry ends the filtered list. */
  lemma {:induction false} CompactLast(entries: seq<Option<string>>)
    requires entries != [] && Truthy(entries[|entries| - 1])
    ensures Compact(entries) != []
    ensures Compact(entries)[|Compact(entries)| - 1] == entries[|entries| - 1].value
  {
    if |entries| > 1 {
      CompactLast(entries[1..]);
    }
  }

  /** The joined string ends with the last part, after a space when there are
      several parts. */
  lemma {:induction false} JoinEndsWithLast(parts: seq<string>)
    requires parts != []
    ensures var j, l := Join(parts), parts[|parts| - 1];
      |l| <= |j| && j[|j| - |l|..] == l && (|parts| > 1 ==> |l| < |j| && j[|j| - |l| - 1] == ' ')
  {
    if |parts| > 1 {
      JoinEndsWithLast(parts[1..]);
    }
  }
}
