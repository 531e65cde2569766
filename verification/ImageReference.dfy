/** A library request and the image string built from it. */
module ImageReference {
  import opened Options

  datatype Library = Library(name: string, registry: string, version: string, pull: bool)

  function NewLibrary(name: string, registry: string, version: string, pull: bool): (r: Option<Library>)
    ensures r.Some? <==> name != "" && registry != "" && version != ""
    ensures r.Some? ==>
              r.value.name == name && r.value.registry == registry && r.value.version == version && r.value.pull == pull
  {
    if name == "" || registry == "" || version == "" then None
    else Some(Library(name, registry, version, pull))
  }

  /** A version with `:` but no `@` is a digest and is joined with `@`. */
  function Separator(version: string): char {
    if ':' in version && '@' !in version then '@' else ':'
  }

  function Image(lib: Library): string {
    lib.registry + "/" + lib.name + [Separator(lib.version)] + lib.version
  }

  /** Names without separators, versions without slashes. */
  ghost predicate Plain(lib: Library) {
    '/' !in lib.name && ':' !in lib.name && '@' !in lib.name && '/' !in lib.version
  }

  lemma SlashIsLast(r: string, t: string)
    requires '/' !in t
    ensures var s := r + "/" + t; s[|r|] == '/' && forall k | |r| < k < |s| :: s[k] != '/'
  {
    var s := r + "/" + t;
    forall k | |r| < k < |s| ensures s[k] != '/' {
      assert s[k] == t[k - |r| - 1];
    }
  }

  lemma LastSlashSplits(r: string, t: string, r': string, t': string)
    requires r + "/" + t == r' + "/" + t'
    requires '/' !in t && '/' !in t'
    ensures r == r' && t == t'
  {
    var s := r + "/" + t;
    SlashIsLast(r, t);
    SlashIsLast(r', t');
    assert s[|r|] == '/' && s[|r'|] == '/' && |r| == |r'|;
    assert s[..|r|] == r && s[..|r'|] == r' && s[|r| + 1..] == t && s[|r'| + 1..] == t';
  }

  lemma SeparatorIsFirst(n: string, c: char, v: string)
    requires ':' !in n && '@' !in n && c in {':', '@'}
    ensures var s := n + [c] + v; s[|n|] in {':', '@'} && forall k | 0 <= k < |n| :: s[k] !in {':', '@'}
  {
    var s := n + [c] + v;
    forall k | 0 <= k < |n| ensures s[k] !in {':', '@'} {
      assert s[k] == n[k];
    }
  }

  lemma FirstSeparatorSplits(n: string, c: char, v: string, n': string, c': char, v': string)
    requires n + [c] + v == n' + [c'] + v'
    requires c in {':', '@'} && c' in {':', '@'}
    requires ':' !in n && '@' !in n && ':' !in n' && '@' !in n'
    ensures n == n' && v == v'
  {
    var s := n + [c] + v;
    SeparatorIsFirst(n, c, v);
    SeparatorIsFirst(n', c', v');
    assert s[|n|] in {':', '@'} && s[|n'|] in {':', '@'} && |n| == |n'|;
    assert s[..|n|] == n && s[..|n'|] == n' && s[|n| + 1..] == v && s[|n'| + 1..] == v';
  }

  /** Across tag, digest and tag@digest forms, the image string determines the
      registry, the name and the version: different requests never share it. */
  lemma ImageDeterminesRequest(a: Library, b: Library)
    requires Plain(a) && Plain(b)
    ensures Image(a) == Image(b) <==> a.registry == b.registry && a.name == b.name && a.version == b.version
  {
    if Image(a) == Image(b) {
      var s, t := a.name + [Separator(a.version)] + a.version, b.name + [Separator(b.version)] + b.version;
      assert Image(a) == a.registry + "/" + s && Image(b) == b.registry + "/" + t;
      LastSlashSplits(a.registry, s, b.registry, t);
      FirstSeparatorSplits(a.name, Separator(a.version), a.version, b.name, Separator(b.version), b.version);
    }
  }

  /** The three documented forms: a tag, a digest, a tag with a digest. */
  lemma ImageForms(name: string, registry: string, tag: string, hex: string, pull: bool)
    requires ':' !in tag && '@' !in tag && ':' !in hex && '@' !in hex
    ensures Image(Library(name, registry, tag, pull)) == registry + "/" + name + ":" + tag
    ensures Image(Library(name, registry, "sha256:" + hex, pull)) == registry + "/" + name + "@sha256:" + hex
    ensures Image(Library(name, registry, tag + "@sha256:" + hex, pull)) ==
            registry + "/" + name + ":" + tag + "@sha256:" + hex
  {
    var digest, both := "sha256:" + hex, tag + "@sha256:" + hex;
    assert digest[6] == ':' && both[|tag|] == '@';
    assert registry + "/" + name + "@" + digest == registry + "/" + name + "@sha256:" + hex;
    assert registry + "/" + name + ":" + both == registry + "/" + name + ":" + tag + "@sha256:" + hex;
  }

  // ---- Which requests share an image with a plain one ----

  /** The index of the last slash, or -1. */
  function LastSlash(s: string): (i: int)
    ensures -1 <= i < |s|
    ensures i >= 0 ==> s[i] == '/'
    ensures forall k | i < k < |s| :: s[k] != '/'
    decreases |s|
  {
    if s == [] then -1
    else if s[|s| - 1] == '/' then |s| - 1
    else LastSlash(s[..|s| - 1])
  }

  /** The index of the first `:` or `@`, or the length. */
  function FirstSeparator(s: string): (i: nat)
    ensures i <= |s|
    ensures i < |s| ==> s[i] in {':', '@'}
    ensures forall k | 0 <= k < i :: s[k] !in {':', '@'}
  {
    if s == [] then 0
    else if s[0] in {':', '@'} then 0
    else 1 + FirstSeparator(s[1..])
  }

  /** The only plain request that an image can stand for: split at the last slash and
      at the first separator after it, if that is the separator its version asks for. */
  function Parse(s: string, pull: bool): Option<Library> {
    var i := LastSlash(s);
    if i < 0 then None
    else
      var t := s[i + 1..];
      var j := FirstSeparator(t);
      if j < |t| && t[j] == Separator(t[j + 1..]) then Some(Library(t[..j], s[..i], t[j + 1..], pull)) else None
  }

  lemma LastSlashFinds(r: string, t: string)
    requires '/' !in t
    ensures var s := r + "/" + t; LastSlash(s) == |r| && s[..|r|] == r && s[|r| + 1..] == t
  {
    SlashIsLast(r, t);
  }

  lemma FirstSeparatorFinds(n: string, c: char, v: string)
    requires ':' !in n && '@' !in n && c in {':', '@'}
    ensures var s := n + [c] + v; FirstSeparator(s) == |n| && s[..|n|] == n && s[|n|] == c && s[|n| + 1..] == v
  {
    SeparatorIsFirst(n, c, v);
  }

  lemma SlashSplit(s: string)
    requires LastSlash(s) >= 0
    ensures var i := LastSlash(s); '/' !in s[i + 1..] && s == s[..i] + "/" + s[i + 1..]
  {
    var i := LastSlash(s);
    var t := s[i + 1..];
    forall k | 0 <= k < |t| ensures t[k] != '/' {
      assert t[k] == s[i + 1 + k];
    }
  }

  lemma SplitAround(t: string, j: nat)
    requires j < |t|
    ensures t == t[..j] + [t[j]] + t[j + 1..]
  {
  }

  lemma SeparatorSplit(t: string, j: nat)
    requires j == FirstSeparator(t) < |t|
    ensures ':' !in t[..j] && '@' !in t[..j] && t == t[..j] + [t[j]] + t[j + 1..]
  {
    SplitAround(t, j);
    assert forall k | 0 <= k < j :: t[..j][k] == t[k];
  }

  lemma ImageIsSplit(lib: Library)
    ensures Image(lib) == lib.registry + "/" + (lib.name + [Separator(lib.version)] + lib.version)
  {
  }

  lemma ImageParses(lib: Library)
    requires Plain(lib)
    ensures Parse(Image(lib), lib.pull) == Some(lib)
  {
    var c := Separator(lib.version);
    ImageIsSplit(lib);
    LastSlashFinds(lib.registry, lib.name + [c] + lib.version);
    FirstSeparatorFinds(lib.name, c, lib.version);
  }

  lemma ParsedIsPlain(s: string, pull: bool)
    requires Parse(s, pull).Some?
    ensures var lib := Parse(s, pull).value; Plain(lib) && Image(lib) == s && lib.pull == pull
  {
    var lib, t := Parse(s, pull).value, s[LastSlash(s) + 1..];
    SlashSplit(s);
    SeparatorSplit(t, FirstSeparator(t));
    assert '/' !in lib.name && '/' !in lib.version;
    ImageIsSplit(lib);
  }

  /** `Parse` and `Image` are inverse to each other on plain requests. */
  lemma ParseIsInverse(s: string, lib: Library)
    ensures Parse(s, lib.pull) == Some(lib) <==> Plain(lib) && Image(lib) == s
  {
    if Plain(lib) && Image(lib) == s {
      ImageParses(lib);
    }
    if Parse(s, lib.pull) == Some(lib) {
      ParsedIsPlain(s, lib.pull);
    }
  }

  predicate SameFields(a: Library, b: Library) {
    a.registry == b.registry && a.name == b.name && a.version == b.version
  }

  /** A request shares its image with a different plain request exactly when it is not
      plain and its image parses, that is, when the first separator after the last
      slash is the one that what follows it asks for. */
  lemma SharesImageWithPlainIff(a: Library)
    ensures (exists b :: Plain(b) && Image(b) == Image(a) && !SameFields(a, b)) <==>
            !Plain(a) && Parse(Image(a), a.pull).Some?
  {
    var parsed := Parse(Image(a), a.pull);
    if parsed.Some? {
      ParseIsInverse(Image(a), parsed.value);
      assert !SameFields(a, parsed.value) || Plain(a);
    }
    forall b | Plain(b) && Image(b) == Image(a) ensures Plain(a) ==> SameFields(a, b) {
      if Plain(a) {
        ImageDeterminesRequest(a, b);
      }
    }
    if b :| Plain(b) && Image(b) == Image(a) {
      ParseIsInverse(Image(a), b.(pull := a.pull));
      assert Image(b.(pull := a.pull)) == Image(b);
    }
  }

  /** Two different requests with one image, of which only the second is plain. */
  ghost predicate Collide(a: Library, b: Library) {
    Image(a) == Image(b) && !SameFields(a, b) && !Plain(a) && Plain(b)
  }

  lemma SlashInName()
    ensures Collide(Library("dd/lib", "gcr.io", "v1", true), Library("lib", "gcr.io/dd", "v1", true))
  {
    assert "dd/lib"[2] == '/';
    assert "gcr.io" + "/" + "dd/lib" + ":" + "v1" == "gcr.io/dd" + "/" + "lib" + ":" + "v1";
  }

  lemma ColonInName(h: string)
    requires forall c | c in h :: c !in {'/', ':', '@'}
    ensures Collide(Library("lib:v1", "gcr.io", "sha256:" + h, true), Library("lib", "gcr.io", "v1@sha256:" + h, true))
  {
    var d, v := "sha256:" + h, "v1@sha256:" + h;
    assert "lib:v1"[3] == ':' && d[6] == ':' && v[2] == '@';
    assert Separator(d) == '@' && Separator(v) == ':';
    assert "gcr.io" + "/" + "lib:v1" + "@" + d == "gcr.io" + "/" + "lib" + ":" + v;
  }

  lemma AtInName(h: string)
    requires forall c | c in h :: c !in {'/', ':', '@'}
    ensures Collide(Library("lib@sha256", "gcr.io", h, true), Library("lib", "gcr.io", "sha256:" + h, true))
  {
    var d := "sha256:" + h;
    assert "lib@sha256"[3] == '@' && d[6] == ':';
    assert Separator(d) == '@' && Separator(h) == ':';
    assert "gcr.io" + "/" + "lib@sha256" + ":" + h == "gcr.io" + "/" + "lib" + "@" + d;
  }

  /** An image like this has a separator before a slash of its path. */
  lemma SlashInVersion(h: string)
    requires forall c | c in h :: c !in {'/', ':', '@'}
    ensures Collide(Library("a", "r", "b/c:1@" + h, true), Library("c", "r/a:b", "1@" + h, true))
  {
    var u, v := "b/c:1@" + h, "1@" + h;
    assert u[1] == '/' && u[5] == '@' && v[1] == '@';
    assert Separator(u) == ':' && Separator(v) == ':';
    assert "r" + "/" + "a" + ":" + u == "r/a:b" + "/" + "c" + ":" + v;
  }

  /** No part of `Plain` can be dropped.  A slash in a name can belong to the registry,
      a `:` or `@` in a name can begin a version, and a slash in a version can belong to
      the registry; `h` is the hexadecimal part of a digest. */
  lemma EveryPartOfPlainIsNeeded(h: string)
    requires forall c | c in h :: c !in {'/', ':', '@'}
    ensures Collide(Library("dd/lib", "gcr.io", "v1", true), Library("lib", "gcr.io/dd", "v1", true))
    ensures Collide(Library("lib:v1", "gcr.io", "sha256:" + h, true), Library("lib", "gcr.io", "v1@sha256:" + h, true))
    ensures Collide(Library("lib@sha256", "gcr.io", h, true), Library("lib", "gcr.io", "sha256:" + h, true))
    ensures Collide(Library("a", "r", "b/c:1@" + h, true), Library("c", "r/a:b", "1@" + h, true))
  {
    SlashInName();
    ColonInName(h);
    AtInName(h);
    SlashInVersion(h);
  }
}
