/** The directory name the hub cache gives a model, and the name read back from
    such a directory (lmrs/model_cache.py). Encoding strips slashes at both ends
    and writes every remaining "/" as "--"; decoding turns "--" back into "/",
    leftmost first. The pair is not a bijection, and this module says exactly
    where it is one. */
module HubNaming {
  import opened Text

  const HUB_REPO_PREFIX := "models--"

  function RepoDirectoryName(modelName: string): string {
    HUB_REPO_PREFIX + Encode(Strip(modelName, '/'))
  }

  function ModelNameFromRepoDirectory(directory: string): string {
    if IsRepoDirectory(directory) then Decode(directory[|HUB_REPO_PREFIX|..]) else ""
  }

  predicate IsRepoDirectory(directory: string) {
    HUB_REPO_PREFIX <= directory
  }

  function Encode(s: string): string { Replace(s, "/", "--") }

  function Decode(s: string): string { Replace(s, "--", "/") }

  /** A dash directly followed by a dash or by a slash: what the encoding confuses. */
  predicate HasAmbiguousPair(s: string) {
    exists i :: 0 <= i < |s| - 1 && AmbiguousAt(s, i)
  }

  predicate AmbiguousAt(s: string, i: int)
    requires 0 <= i < |s| - 1
  {
    s[i] == '-' && (s[i + 1] == '-' || s[i + 1] == '/')
  }

  // ----- one step of each direction -----

  lemma EncodeStep(c: char, s: string)
    ensures Encode([c] + s) == (if c == '/' then "--" else [c]) + Encode(s)
  {
    assert ([c] + s)[..1] == [c] && ([c] + s)[1..] == s;
  }

  lemma DecodeStep(c: char, s: string)
    requires c != '-' || s == "" || s[0] != '-'
    ensures Decode([c] + s) == [c] + Decode(s)
  {
    var t := [c] + s;
    assert t[1..] == s;
    if |t| >= 2 {
      assert t[..2] == [c, s[0]];
      assert t[..2] != "--";
    }
  }

  lemma DecodePair(s: string)
    ensures Decode("--" + s) == "/" + Decode(s)
  {
    assert ("--" + s)[..2] == "--" && ("--" + s)[2..] == s;
  }

  lemma EncodeDashPair(next: char, tail: string)
    requires next == '-' || next == '/'
    ensures Encode(['-'] + ([next] + tail)) == "--" + Encode(if next == '-' then tail else ['-'] + tail)
  {
    EncodeStep('-', [next] + tail);
    EncodeStep(next, tail);
    EncodeStep('-', tail);
    if next == '/' {
      assert ['-'] + ("--" + Encode(tail)) == "--" + (['-'] + Encode(tail));
    } else {
      assert ['-'] + (['-'] + Encode(tail)) == "--" + Encode(tail);
    }
  }

  lemma AmbiguousTail(c: char, s: string)
    ensures HasAmbiguousPair([c] + s) <==>
            HasAmbiguousPair(s) || (c == '-' && s != "" && (s[0] == '-' || s[0] == '/'))
  {
    var t := [c] + s;
    if HasAmbiguousPair(s) {
      var i :| 0 <= i < |s| - 1 && AmbiguousAt(s, i);
      assert AmbiguousAt(t, i + 1);
    }
    if c == '-' && s != "" && (s[0] == '-' || s[0] == '/') {
      assert AmbiguousAt(t, 0);
    }
    if HasAmbiguousPair(t) {
      var i :| 0 <= i < |t| - 1 && AmbiguousAt(t, i);
      if i > 0 { assert AmbiguousAt(s, i - 1); }
    }
  }

  // ----- the round trip -----

  /** Decoding an encoded string never lengthens it, and gives it back exactly
      when no dash meets a dash or a slash. */
  lemma {:induction false} DecodeEncode(s: string)
    ensures |Decode(Encode(s))| <= |s|
    ensures Decode(Encode(s)) == s <==> !HasAmbiguousPair(s)
    decreases |s|
  {
    if s == "" {
      assert !HasAmbiguousPair(s);
      return;
    }
    var c, rest := s[0], s[1..];
    assert s == [c] + rest;
    EncodeStep(c, rest);
    AmbiguousTail(c, rest);
    DecodeEncode(rest);
    if c == '/' {
      DecodePair(Encode(rest));
    } else if c == '-' && rest != "" && rest[0] == '-' {
      var tail := rest[1..];
      assert rest == ['-'] + tail;
      EncodeDashPair('-', tail);
      DecodePair(Encode(tail));
      DecodeEncode(tail);
    } else if c == '-' && rest != "" && rest[0] == '/' {
      var tail := rest[1..];
      assert rest == ['/'] + tail;
      EncodeDashPair('/', tail);
      DecodePair(Encode(['-'] + tail));
      DecodeEncode(['-'] + tail);
    } else {
      if rest != "" { EncodeStep(rest[0], rest[1..]); assert rest == [rest[0]] + rest[1..]; }
      DecodeStep(c, Encode(rest));
    }
  }

  lemma DecodedDirectory(modelName: string)
    ensures ModelNameFromRepoDirectory(RepoDirectoryName(modelName)) == Decode(Encode(Strip(modelName, '/')))
  {
    var encoded := Encode(Strip(modelName, '/'));
    assert (HUB_REPO_PREFIX + encoded)[|HUB_REPO_PREFIX|..] == encoded;
  }

  /** The exact domain of the round trip. */
  lemma RoundTrip(modelName: string)
    ensures ModelNameFromRepoDirectory(RepoDirectoryName(modelName)) == modelName
       <==> !HasEdge(modelName, '/') && !HasAmbiguousPair(modelName)
  {
    StripChangesEdges(modelName, '/');
    DecodedDirectory(modelName);
    DecodeEncode(Strip(modelName, '/'));
  }

  /** On that domain two names never share a directory. */
  lemma EncodingInjective(m: string, n: string)
    requires !HasEdge(m, '/') && !HasAmbiguousPair(m)
    requires !HasEdge(n, '/') && !HasAmbiguousPair(n)
    requires RepoDirectoryName(m) == RepoDirectoryName(n)
    ensures m == n
  {
    RoundTrip(m);
    RoundTrip(n);
  }

  // ----- the other direction -----

  lemma {:induction false} EncodeDecode(s: string)
    requires '/' !in s
    ensures Encode(Decode(s)) == s
    decreases |s|
  {
    if |s| >= 2 && s[..2] == "--" {
      assert s == "--" + s[2..];
      EncodeDecode(s[2..]);
      DecodePair(s[2..]);
      EncodeStep('/', Decode(s[2..]));
    } else if s != "" {
      assert s == [s[0]] + s[1..];
      if |s| >= 2 && s[0] == '-' { assert s[..2] == [s[0], s[1]]; assert s[1] != '-'; }
      EncodeDecode(s[1..]);
      DecodeStep(s[0], s[1..]);
      EncodeStep(s[0], Decode(s[1..]));
    }
  }

  lemma {:induction false} EncodeHasNoSlash(s: string)
    ensures '/' !in Encode(s)
  {
    if s != "" {
      assert s == [s[0]] + s[1..];
      EncodeStep(s[0], s[1..]);
      EncodeHasNoSlash(s[1..]);
    }
  }

  /** Every model lives in one path component directly below the hub root. */
  lemma DirectoryIsOneComponent(modelName: string)
    ensures '/' !in RepoDirectoryName(modelName)
    ensures IsRepoDirectory(RepoDirectoryName(modelName))
  {
    EncodeHasNoSlash(Strip(modelName, '/'));
  }

  /** A directory is found again from the name it decodes to exactly when that
      name has no slash at either end. */
  lemma DirectoryRoundTrip(directory: string)
    requires IsRepoDirectory(directory) && '/' !in directory
    ensures RepoDirectoryName(ModelNameFromRepoDirectory(directory)) == directory
       <==> !HasEdge(ModelNameFromRepoDirectory(directory), '/')
  {
    var suffix := directory[|HUB_REPO_PREFIX|..];
    assert directory == HUB_REPO_PREFIX + suffix;
    var name := Decode(suffix);
    EncodeDecode(suffix);
    StripChangesEdges(name, '/');
    if HasEdge(name, '/') {
      EncodeShrinks(name);
    }
  }

  /** Stripping a slash shortens the encoding. */
  lemma EncodeShrinks(s: string)
    requires HasEdge(s, '/')
    ensures |Encode(Strip(s, '/'))| < |Encode(s)|
  {
    var l := StripLeft(s, '/');
    var r := StripRight(l, '/');
    StripLeftIsSuffix(s, '/');
    StripRightIsPrefix(l, '/');
    var left, right := s[..|s| - |l|], l[|r|..];
    assert s == left + r + right;
    EncodeConcat(left + r, right);
    EncodeConcat(left, r);
    EncodeAtLeast(left);
    EncodeAtLeast(right);
    StripChangesEdges(s, '/');
  }

  lemma {:induction false} EncodeConcat(a: string, b: string)
    ensures Encode(a + b) == Encode(a) + Encode(b)
  {
    if a == "" {
      assert a + b == b;
    } else {
      assert a + b == [a[0]] + (a[1..] + b) && a == [a[0]] + a[1..];
      EncodeStep(a[0], a[1..] + b);
      EncodeStep(a[0], a[1..]);
      EncodeConcat(a[1..], b);
    }
  }

  lemma {:induction false} EncodeAtLeast(s: string)
    ensures |Encode(s)| >= |s|
  {
    if s != "" {
      assert s == [s[0]] + s[1..];
      EncodeStep(s[0], s[1..]);
      EncodeAtLeast(s[1..]);
    }
  }

  /** Different repository directories decode to different names. */
  lemma DecodingInjective(d: string, e: string)
    requires IsRepoDirectory(d) && '/' !in d
    requires IsRepoDirectory(e) && '/' !in e
    requires ModelNameFromRepoDirectory(d) == ModelNameFromRepoDirectory(e)
    ensures d == e
  {
    EncodeDecode(d[|HUB_REPO_PREFIX|..]);
    EncodeDecode(e[|HUB_REPO_PREFIX|..]);
    assert d == HUB_REPO_PREFIX + d[|HUB_REPO_PREFIX|..];
    assert e == HUB_REPO_PREFIX + e[|HUB_REPO_PREFIX|..];
  }

  /** Only the bare prefix decodes to the empty name. */
  lemma EmptyNameIsBarePrefix(d: string)
    requires IsRepoDirectory(d) && '/' !in d
    ensures ModelNameFromRepoDirectory(d) == "" <==> d == HUB_REPO_PREFIX
  {
    assert d == HUB_REPO_PREFIX + d[|HUB_REPO_PREFIX|..];
    EncodeDecode(d[|HUB_REPO_PREFIX|..]);
  }

  /** Two names share a directory exactly when stripping and decoding cannot tell them apart. */
  lemma Collision(m: string, n: string)
    ensures RepoDirectoryName(m) == RepoDirectoryName(n)
       <==> Decode(Encode(Strip(m, '/'))) == Decode(Encode(Strip(n, '/')))
  {
    DecodedDirectory(m);
    DecodedDirectory(n);
    DirectoryIsOneComponent(m);
    DirectoryIsOneComponent(n);
    if Decode(Encode(Strip(m, '/'))) == Decode(Encode(Strip(n, '/'))) {
      DecodingInjective(RepoDirectoryName(m), RepoDirectoryName(n));
    }
  }

  /** Each excluded family really loses a name. */
  lemma LossyNames(n: string)
    requires n == "a--b" || n == "a-/b" || n == "a/"
    ensures ModelNameFromRepoDirectory(RepoDirectoryName(n)) != n
  {
    RoundTrip(n);
    assert |n| == 4 ==> AmbiguousAt(n, 1);
  }

  /** Slashes inside a name become double dashes one by one, everything else stays. */
  lemma EncodingMeaning(a: string, b: string)
    ensures '/' !in a ==> Encode(a) == a
    ensures Encode(a + "/" + b) == Encode(a) + "--" + Encode(b)
  {
    if '/' !in a { EncodeWithoutSlash(a); }
    EncodeConcat(a + "/", b);
    EncodeConcat(a, "/");
    EncodeStep('/', "");
  }

  lemma {:induction false} EncodeWithoutSlash(s: string)
    requires '/' !in s
    ensures Encode(s) == s
  {
    if s != "" {
      assert s == [s[0]] + s[1..];
      EncodeStep(s[0], s[1..]);
      EncodeWithoutSlash(s[1..]);
    }
  }

  /** The directory of an ordinary two-part name. */
  lemma OrdinaryDirectory(org: string, name: string)
    requires org != "" && name != "" && '/' !in org && '/' !in name
    ensures RepoDirectoryName(org + "/" + name) == "models--" + (org + "--" + name)
  {
    var full := org + "/" + name;
    assert full[0] == org[0] && full[|full| - 1] == name[|name| - 1];
    StripChangesEdges(full, '/');
    EncodingMeaning(org, name);
    EncodingMeaning(name, "");
  }
}
