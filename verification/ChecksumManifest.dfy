/** The installer's entry in a checksum manifest. */
module ChecksumManifest {
  import opened Text
  import opened UpdateRelease

  predicate IsAsciiWhite(c: char) {
    c in " \t\n\r" || c == '\U{0C}'
  }

  function WordEnd(s: string): (n: nat)
    ensures n <= |s| && (s != [] && !IsAsciiWhite(s[0]) ==> n > 0)
    decreases |s|
  {
    if s == [] || IsAsciiWhite(s[0]) then 0 else WordEnd(s[1..]) + 1
  }

  /** `split_ascii_whitespace`. */
  function Words(s: string): seq<string>
    decreases |s|
  {
    if s == [] then []
    else if IsAsciiWhite(s[0]) then Words(s[1..])
    else [s[..WordEnd(s)]] + Words(s[WordEnd(s)..])
  }

  function StripStar(name: string): string {
    if name != [] && name[0] == '*' then name[1..] else name
  }

  predicate IsSha256(s: string) {
    |s| == 64 && AllDigits(s, 16)
  }

  /** The line names the installer in its second field. */
  predicate ForInstaller(line: string) {
    var w := Words(Trim(line));
    |w| >= 2 && StripStar(w[1]) == INSTALLER_ASSET_NAME
  }

  /** Exactly a digest and the name. */
  predicate WellFormed(line: string) {
    var w := Words(Trim(line));
    |w| == 2 && IsSha256(w[0])
  }

  function DigestOf(line: string): string
    requires ForInstaller(line)
  {
    Lower(Words(Trim(line))[0])
  }

  /** The installer's lines, in order. */
  function Entries(lines: seq<string>): (e: seq<string>)
    ensures forall i :: 0 <= i < |e| ==> ForInstaller(e[i])
    decreases |lines|
  {
    if lines == [] then [] else (if ForInstaller(lines[0]) then [lines[0]] else []) + Entries(lines[1..])
  }

  /** One well-formed entry is the answer; the first malformed one, or else a second, is the refusal. */
  function Verdict(entries: seq<string>): Result<string>
    requires forall i :: 0 <= i < |entries| ==> ForInstaller(entries[i])
  {
    if entries == [] then Err(MissingChecksumEntry)
    else if !WellFormed(entries[0]) then Err(InvalidChecksum)
    else if |entries| == 1 then Ok(DigestOf(entries[0]))
    else if !WellFormed(entries[1]) then Err(InvalidChecksum)
    else Err(DuplicateChecksumEntry)
  }

  lemma {:induction false} EntriesSnoc(lines: seq<string>, line: string)
    ensures Entries(lines + [line]) == Entries(lines) + if ForInstaller(line) then [line] else []
    decreases |lines|
  {
    hide ForInstaller;
    if lines == [] {
      assert (lines + [line])[1..] == [];
    } else {
      assert (lines + [line])[1..] == lines[1..] + [line];
      EntriesSnoc(lines[1..], line);
    }
  }

  lemma {:induction false} EntriesPrefix(lines: seq<string>, n: nat)
    requires n <= |lines|
    ensures Entries(lines[..n]) <= Entries(lines)
    decreases |lines| - n
  {
    if n == |lines| {
      assert lines[..n] == lines;
    } else {
      EntriesSnoc(lines[..n], lines[n]);
      assert lines[..n + 1] == lines[..n] + [lines[n]];
      EntriesPrefix(lines, n + 1);
    }
  }

  /** The scan stops at the first refusal and agrees with the verdict on all entries. */
  method ParseChecksumManifest(manifest: string) returns (r: Result<string>)
    ensures r == Verdict(Entries(Lines(manifest)))
  {
    hide ForInstaller, WellFormed, Words, Trim, Lines, Lower;
    var lines := Lines(manifest);
    var checksum := [];
    var found := false;
    for i := 0 to |lines|
      invariant var e := Entries(lines[..i]);
        && |e| <= 1 && found == (|e| == 1) && (found ==> WellFormed(e[0]) && checksum == DigestOf(e[0]))
    {
      EntriesSnoc(lines[..i], lines[i]);
      assert lines[..i + 1] == lines[..i] + [lines[i]];
      EntriesPrefix(lines, i + 1);
      if ForInstaller(lines[i]) {
        if !WellFormed(lines[i]) {
          return Err(InvalidChecksum);
        }
        if found {
          return Err(DuplicateChecksumEntry);
        }
        checksum := DigestOf(lines[i]);
        found := true;
      }
    }
    assert lines[..|lines|] == lines;
    return if found then Ok(checksum) else Err(MissingChecksumEntry);
  }

  // ---- conventional manifests ----------------------------------------------------

  predicate Solid(s: string) {
    s != [] && forall i :: 0 <= i < |s| ==> '!' <= s[i] <= '~'
  }

  lemma {:induction false} WordEndOf(word: string, rest: string)
    requires Solid(word) && (rest == [] || IsAsciiWhite(rest[0]))
    ensures WordEnd(word + rest) == |word|
    decreases |word|
  {
    assert (word + rest)[1..] == word[1..] + rest;
    if |word| > 1 {
      WordEndOf(word[1..], rest);
    } else {
      assert word[1..] + rest == rest;
    }
  }

  lemma FirstWord(word: string, rest: string)
    requires Solid(word) && (rest == [] || IsAsciiWhite(rest[0]))
    ensures Words(word + rest) == [word] + Words(rest)
  {
    WordEndOf(word, rest);
    assert (word + rest)[..|word|] == word && (word + rest)[|word|..] == rest;
  }

  lemma TrimSolid(a: string, middle: string, b: string)
    requires Solid(a) && Solid(b)
    ensures Trim(a + middle + b) == a + middle + b
  {
    var s := a + middle + b;
    assert s[0] == a[0] && s[|s| - 1] == b[|b| - 1];
    SolidNotWhite(s[0]);
    SolidNotWhite(s[|s| - 1]);
  }

  lemma SolidNotWhite(c: char)
    requires '!' <= c <= '~'
    ensures !IsWhite(c) && !IsAsciiWhite(c)
  {
  }

  lemma ConventionalWords(digest: string, name: string, star: bool)
    requires Solid(digest) && Solid(name) && name[0] != '*'
    ensures var line := digest + (if star then " *" else "  ") + name;
      Words(Trim(line)) == [digest, (if star then "*" else "") + name]
  {
    hide Words, Trim;
    var mark, marked := if star then " *" else "  ", (if star then "*" else "") + name;
    TrimSolid(digest, mark, name);
    assert digest + mark + name == digest + (mark + name);
    FirstWord(digest, mark + name);
    TailWord(mark, name, marked);
  }

  /** A line as checksum tools write it, text or binary mark, is an entry with that digest. */
  lemma ConventionalLine(digest: string, name: string, star: bool)
    requires IsSha256(digest) && Solid(digest) && Solid(name) && name[0] != '*'
    ensures var line := digest + (if star then " *" else "  ") + name;
      && WellFormed(line) && (ForInstaller(line) <==> name == INSTALLER_ASSET_NAME)
      && (ForInstaller(line) ==> DigestOf(line) == Lower(digest))
  {
    ConventionalWords(digest, name, star);
    hide Words, Trim, IsSha256, Solid, Lower;
    if star {
      assert ("*" + name)[1..] == name;
    } else {
      assert "" + name == name;
    }
  }

  lemma TailWord(mark: string, name: string, marked: string)
    requires Solid(name) && name[0] != '*'
    requires (mark == " *" && marked == "*" + name) || (mark == "  " && marked == name)
    ensures Words(mark + name) == [marked]
  {
    assert Solid(marked);
    FirstWord(marked, []);
    assert marked + [] == marked && Words([]) == [];
    if mark == " *" {
      assert (mark + name)[1..] == marked;
    } else {
      assert (mark + name)[1..] == " " + name;
      assert (" " + name)[1..] == name;
    }
  }
}
