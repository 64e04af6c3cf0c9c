/** Which release is offered: version numbers and the fixed pair of assets. */
module UpdateRelease {
  import opened Wrappers
  import opened Text
  import opened UpdatePolicy

  const INSTALLER_ASSET_NAME := "RunDog-Setup-x64.exe"
  const CHECKSUM_ASSET_NAME := "RunDog-Setup-x64.exe.sha256"

  datatype ProtocolError =
    | InvalidVersion
    | MissingInstallerAsset
    | MissingChecksumAsset
    | DuplicateInstallerAsset
    | DuplicateChecksumAsset
    | InvalidAssetUrl
    | InvalidChecksum
    | MissingChecksumEntry
    | DuplicateChecksumEntry

  datatype Result<T> = Ok(value: T) | Err(error: ProtocolError)

  datatype Asset = Asset(name: string, url: string)

  datatype Release = Release(tagName: string, draft: bool, prerelease: bool, assets: seq<Asset>)

  datatype Candidate = Candidate(version: Version, installerUrl: string, checksumUrl: string)

  // ---- versions ------------------------------------------------------------------

  /** A component without leading zeros. */
  function ParseComponent(part: string): Option<u32> {
    if part == [] || (|part| > 1 && part[0] == '0') || !AllDigits(part, 10) then None
    else ParseUint(part, U32_MAX)
  }

  function ParseParts(parts: seq<string>): Option<Version> {
    if |parts| != 3 then None
    else
      match (ParseComponent(parts[0]), ParseComponent(parts[1]), ParseComponent(parts[2]))
      case (Some(a), Some(b), Some(c)) => Some(Version(a, b, c))
      case _ => None
  }

  function StripV(text: string): string {
    if text != [] && text[0] == 'v' then text[1..] else text
  }

  function ParseVersion(text: string): Option<Version> {
    ParseParts(Split(StripV(text), '.'))
  }

  function Display(v: Version): string {
    Dec(v.major) + "." + Dec(v.minor) + "." + Dec(v.patch)
  }

  /** Component by component, as the parser does it. */
  method Parse(text: string) returns (r: Option<Version>)
    ensures r == ParseVersion(text)
  {
    hide ParseComponent, Split, StripV;
    var parts := Split(StripV(text), '.');
    var parsed: seq<u32> := [];
    while |parsed| < 3
      invariant |parsed| <= 3 && |parsed| <= |parts|
      invariant forall i :: 0 <= i < |parsed| ==> ParseComponent(parts[i]) == Some(parsed[i])
    {
      if |parsed| == |parts| {
        return None;
      }
      var part := ParseComponent(parts[|parsed|]);
      if part.None? {
        return None;
      }
      parsed := parsed + [part.value];
    }
    if |parts| > 3 {
      return None;
    }
    return Some(Version(parsed[0], parsed[1], parsed[2]));
  }

  predicate VersionLe(a: Version, b: Version) {
    a.major < b.major || (a.major == b.major && (a.minor < b.minor || (a.minor == b.minor && a.patch <= b.patch)))
  }

  /** Digits without a leading zero are the decimal form of their value. */
  lemma {:induction false} DecOfValue(s: string)
    requires s != [] && AllDigits(s, 10) && (|s| > 1 ==> s[0] != '0')
    ensures Dec(DigitsValue(s, 10)) == s
    decreases |s|
  {
    hide DigitOf, DigitChar, Dec;
    var high, low := s[..|s| - 1], s[|s| - 1];
    var d := DigitOf(low).value;
    CharOf(low);
    assert s == high + [low];
    assert AllDigits(high, 10) && d < 10;
    var v := DigitsValue(high, 10);
    assert DigitsValue(s, 10) == 10 * v + d;
    hide DigitsValue, AllDigits;
    if |s| == 1 {
      NoDigits();
    } else {
      DecOfValue(high);
      LeadingDigit(high);
    }
    DecStep(v, d);
  }

  lemma NoDigits()
    ensures DigitsValue([], 10) == 0
  {
  }

  lemma DecStep(v: nat, d: nat)
    requires d < 10
    ensures Dec(10 * v + d) == (if v == 0 then [] else Dec(v)) + [DigitChar(d)]
  {
    hide DigitChar;
    assert (10 * v + d) / 10 == v && (10 * v + d) % 10 == d;
  }

  lemma CharOf(c: char)
    requires DigitOf(c).Some? && DigitOf(c).value < 10
    ensures DigitChar(DigitOf(c).value) == c
  {
  }

  lemma {:induction false} LeadingDigit(s: string)
    requires s != [] && AllDigits(s, 10) && s[0] != '0'
    ensures DigitsValue(s, 10) > 0
    decreases |s|
  {
    if |s| > 1 {
      LeadingDigit(s[..|s| - 1]);
    } else {
      assert DigitsValue(s[..0], 10) == 0;
    }
  }

  lemma {:induction false} DecHasNoLeadingZero(n: nat)
    ensures Dec(n) != [] && AllDigits(Dec(n), 10) && (n > 0 ==> Dec(n)[0] != '0') && (n < 10 ==> |Dec(n)| == 1)
    decreases n
  {
    DecDigits(n);
    if n >= 10 {
      DecHasNoLeadingZero(n / 10);
      assert Dec(n)[0] == Dec(n / 10)[0];
    }
  }

  lemma ComponentExact(part: string, n: u32)
    ensures ParseComponent(part) == Some(n) <==> part == Dec(n)
  {
    DecDigits(n);
    DecHasNoLeadingZero(n);
    if ParseComponent(part) == Some(n) {
      assert part[0] != '+';
      DecOfValue(part);
    }
  }

  lemma {:induction false} JoinSplit(s: string, c: char)
    ensures Join(Split(s, c), c) == s
    decreases |s|
  {
    var n := IndexOf(s, c);
    if n < |s| {
      JoinSplit(s[n + 1..], c);
      var rest := Split(s[n + 1..], c);
      assert ([s[..n]] + rest)[1..] == rest;
      assert s == s[..n] + [c] + s[n + 1..];
    }
  }

  /** Exactly the displayed versions are accepted, with or without the tag's `v`. */
  lemma ParseExact(text: string, v: Version)
    ensures ParseVersion(text) == Some(v) <==> text == Display(v) || text == "v" + Display(v)
  {
    hide ParseVersion, Display;
    StrippedExact(text, v);
    Undotted(v);
    assert ("v" + Display(v))[1..] == Display(v);
    if text != [] && text[0] == 'v' {
      assert text == "v" + text[1..];
    }
  }

  lemma Undotted(v: Version)
    ensures Display(v) != [] && Display(v)[0] != 'v'
  {
    DecDigits(v.major);
    hide Dec;
    assert Display(v)[0] == Dec(v.major)[0];
  }

  lemma StrippedExact(text: string, v: Version)
    ensures ParseVersion(text) == Some(v) <==> StripV(text) == Display(v)
  {
    hide Split, Join, ParseComponent, AllDigits, Dec, StripV;
    var read := Split(StripV(text), '.');
    SplitDisplay(v);
    JoinSplit(StripV(text), '.');
    if |read| == 3 {
      PartsExact(read, v);
      JoinThree(read);
    }
    PartsExact([Dec(v.major), Dec(v.minor), Dec(v.patch)], v);
  }

  lemma PartsExact(parts: seq<string>, v: Version)
    requires |parts| == 3
    ensures ParseParts(parts) == Some(v) <==> parts == [Dec(v.major), Dec(v.minor), Dec(v.patch)]
  {
    hide ParseComponent, Dec;
    ComponentExact(parts[0], v.major);
    ComponentExact(parts[1], v.minor);
    ComponentExact(parts[2], v.patch);
  }

  lemma SplitDisplay(v: Version)
    ensures Split(Display(v), '.') == [Dec(v.major), Dec(v.minor), Dec(v.patch)]
  {
    var parts := [Dec(v.major), Dec(v.minor), Dec(v.patch)];
    DecDigits(v.major);
    DecDigits(v.minor);
    DecDigits(v.patch);
    DigitsLack(parts[0], 10, '.');
    DigitsLack(parts[1], 10, '.');
    DigitsLack(parts[2], 10, '.');
    hide Split, Join, AllDigits, Dec, Lacks;
    JoinThree(parts);
    SplitJoin(parts, '.');
  }

  lemma JoinThree(parts: seq<string>)
    requires |parts| == 3
    ensures Join(parts, '.') == parts[0] + "." + parts[1] + "." + parts[2]
  {
    assert parts[1..][1..] == parts[2..];
    assert Join(parts[2..], '.') == parts[2];
  }

  // ---- the release ---------------------------------------------------------------

  predicate Graphic(s: string) {
    forall i :: 0 <= i < |s| ==> '!' <= s[i] <= '~' && s[i] != '\\'
  }

  const HOST := "https://github.com"

  function DownloadPrefix(repository: string): string {
    HOST + "/" + repository + "/releases/download/"
  }

  function AssetUrl(repository: string, tag: string, name: string): string {
    DownloadPrefix(repository) + tag + "/" + name
  }

  predicate ValidAssetUrl(repository: string, url: string, name: string) {
    var prefix := DownloadPrefix(repository);
    && prefix <= url
    && var path := url[|prefix|..];
      && path != [] && |path| >= |name| + 1 && path[|path| - |name| - 1..] == "/" + name && Graphic(path)
  }

  function Named(assets: seq<Asset>, name: string): seq<Asset>
    decreases |assets|
  {
    if assets == [] then []
    else (if assets[0].name == name then [assets[0]] else []) + Named(assets[1..], name)
  }

  function RequiredAsset(assets: seq<Asset>, name: string, missing: ProtocolError, duplicate: ProtocolError): Result<Asset> {
    var matching := Named(assets, name);
    if matching == [] then Err(missing) else if |matching| > 1 then Err(duplicate) else Ok(matching[0])
  }

  predicate ValidReleaseAssetUrl(repository: string, url: string, tag: string, name: string) {
    ValidAssetUrl(repository, url, name) && url == AssetUrl(repository, tag, name)
  }

  function SelectUpdate(repository: string, current: Version, release: Release): Result<Option<Candidate>> {
    if release.draft || release.prerelease then Ok(None)
    else if ParseVersion(release.tagName).None? then Err(InvalidVersion)
    else
      var version := ParseVersion(release.tagName).value;
      if VersionLe(version, current) then Ok(None)
      else
        var installer := RequiredAsset(release.assets, INSTALLER_ASSET_NAME, MissingInstallerAsset, DuplicateInstallerAsset);
        var checksum := RequiredAsset(release.assets, CHECKSUM_ASSET_NAME, MissingChecksumAsset, DuplicateChecksumAsset);
        if installer.Err? then Err(installer.error)
        else if checksum.Err? then Err(checksum.error)
        else if !ValidReleaseAssetUrl(repository, installer.value.url, release.tagName, INSTALLER_ASSET_NAME) then
          Err(InvalidAssetUrl)
        else if !ValidReleaseAssetUrl(repository, checksum.value.url, release.tagName, CHECKSUM_ASSET_NAME) then
          Err(InvalidAssetUrl)
        else Ok(Some(Candidate(version, installer.value.url, checksum.value.url)))
  }

  /** The path handed to the network adapter, after the same check again. */
  function DownloadPath(repository: string, url: string, name: string): Result<string> {
    if !ValidAssetUrl(repository, url, name) || !(HOST <= url) then Err(InvalidAssetUrl) else Ok(url[|HOST|..])
  }

  lemma TagGraphic(tag: string)
    requires ParseVersion(tag).Some?
    ensures Graphic(tag)
  {
    var v := ParseVersion(tag).value;
    ParseExact(tag, v);
    hide ParseVersion;
    DisplayGraphic(v);
    hide Display, Graphic;
    LetterGraphic();
    GraphicJoined("v", Display(v));
  }

  lemma LetterGraphic()
    ensures Graphic("v") && Graphic(".") && Graphic("/")
  {
  }

  lemma DisplayGraphic(v: Version)
    ensures Graphic(Display(v))
  {
    DecDigits(v.major);
    DecDigits(v.minor);
    DecDigits(v.patch);
    DigitsGraphic(Dec(v.major));
    DigitsGraphic(Dec(v.minor));
    DigitsGraphic(Dec(v.patch));
    hide Dec, AllDigits, Graphic;
    LetterGraphic();
    GraphicJoined(Dec(v.major), ".");
    GraphicJoined(Dec(v.major) + ".", Dec(v.minor));
    GraphicJoined(Dec(v.major) + "." + Dec(v.minor), ".");
    GraphicJoined(Dec(v.major) + "." + Dec(v.minor) + ".", Dec(v.patch));
  }

  lemma GraphicJoined(a: string, b: string)
    requires Graphic(a) && Graphic(b)
    ensures Graphic(a + b)
  {
  }

  lemma DigitsGraphic(s: string)
    requires AllDigits(s, 10)
    ensures Graphic(s)
  {
    forall i | 0 <= i < |s| ensures '!' <= s[i] <= '~' && s[i] != '\\' {
      assert DigitOf(s[i]).Some?;
    }
  }

  /** For a version tag the two checks of an address come down to one address. */
  lemma AddressExact(repository: string, url: string, tag: string, name: string)
    requires ParseVersion(tag).Some? && Graphic(name)
    ensures ValidReleaseAssetUrl(repository, url, tag, name) <==> url == AssetUrl(repository, tag, name)
  {
    hide ParseVersion, DownloadPrefix, Graphic;
    TagGraphic(tag);
    LetterGraphic();
    GraphicJoined(tag, "/");
    GraphicJoined(tag + "/", name);
    AddressPath(repository, tag, name);
  }

  lemma AddressPath(repository: string, tag: string, name: string)
    requires Graphic(tag + "/" + name)
    ensures ValidAssetUrl(repository, AssetUrl(repository, tag, name), name)
  {
    hide DownloadPrefix, Graphic;
    var prefix, path := DownloadPrefix(repository), tag + "/" + name;
    var url := AssetUrl(repository, tag, name);
    assert url == prefix + path;
    assert url[|prefix|..] == path;
    assert path[|path| - |name| - 1..] == "/" + name;
  }

  /** An update is offered exactly for a published stable release with a strictly
      newer version and one installer and one checksum at the release's own addresses. */
  lemma SelectExactly(repository: string, current: Version, release: Release, c: Candidate)
    ensures SelectUpdate(repository, current, release) == Ok(Some(c)) <==>
            && !release.draft && !release.prerelease
            && ParseVersion(release.tagName) == Some(c.version) && !VersionLe(c.version, current)
            && Named(release.assets, INSTALLER_ASSET_NAME) == [Asset(INSTALLER_ASSET_NAME, c.installerUrl)]
            && Named(release.assets, CHECKSUM_ASSET_NAME) == [Asset(CHECKSUM_ASSET_NAME, c.checksumUrl)]
            && c.installerUrl == AssetUrl(repository, release.tagName, INSTALLER_ASSET_NAME)
            && c.checksumUrl == AssetUrl(repository, release.tagName, CHECKSUM_ASSET_NAME)
  {
    NamedIs(release.assets, INSTALLER_ASSET_NAME);
    NamedIs(release.assets, CHECKSUM_ASSET_NAME);
    FixedNamesGraphic();
    hide ParseVersion, Named, AssetUrl, ValidReleaseAssetUrl, Graphic;
    if ParseVersion(release.tagName).Some? {
      var i, k := Named(release.assets, INSTALLER_ASSET_NAME), Named(release.assets, CHECKSUM_ASSET_NAME);
      if |i| == 1 && |k| == 1 {
        AddressExact(repository, i[0].url, release.tagName, INSTALLER_ASSET_NAME);
        AddressExact(repository, k[0].url, release.tagName, CHECKSUM_ASSET_NAME);
      }
    }
  }

  lemma FixedNamesGraphic()
    ensures Graphic(INSTALLER_ASSET_NAME) && Graphic(CHECKSUM_ASSET_NAME)
  {
  }

  lemma {:induction false} NamedIs(assets: seq<Asset>, name: string)
    ensures forall a :: a in Named(assets, name) <==> a in assets && a.name == name
    decreases |assets|
  {
    if assets != [] {
      NamedIs(assets[1..], name);
      assert assets == [assets[0]] + assets[1..];
    }
  }

  /** What was selected passes the second check, and its path is the rest of the address. */
  lemma SelectedIsDownloadable(repository: string, current: Version, release: Release)
    requires SelectUpdate(repository, current, release).Ok? && SelectUpdate(repository, current, release).value.Some?
    ensures var c := SelectUpdate(repository, current, release).value.value;
      && DownloadPath(repository, c.installerUrl, INSTALLER_ASSET_NAME).Ok?
      && DownloadPath(repository, c.checksumUrl, CHECKSUM_ASSET_NAME).Ok?
      && HOST + DownloadPath(repository, c.installerUrl, INSTALLER_ASSET_NAME).value == c.installerUrl
      && HOST + DownloadPath(repository, c.checksumUrl, CHECKSUM_ASSET_NAME).value == c.checksumUrl
  {
    hide ParseVersion, Named, AssetUrl, ValidAssetUrl, DownloadPath;
    var c := SelectUpdate(repository, current, release).value.value;
    var tag := release.tagName;
    assert ValidReleaseAssetUrl(repository, c.installerUrl, tag, INSTALLER_ASSET_NAME);
    assert ValidReleaseAssetUrl(repository, c.checksumUrl, tag, CHECKSUM_ASSET_NAME);
    hide SelectUpdate;
    PathOf(repository, tag, INSTALLER_ASSET_NAME);
    PathOf(repository, tag, CHECKSUM_ASSET_NAME);
  }

  lemma PathOf(repository: string, tag: string, name: string)
    requires ValidAssetUrl(repository, AssetUrl(repository, tag, name), name)
    ensures var url := AssetUrl(repository, tag, name);
      DownloadPath(repository, url, name).Ok? && HOST + DownloadPath(repository, url, name).value == url
  {
    hide AssetUrl, ValidAssetUrl;
    HostFirst(repository, tag, name);
  }

  lemma HostFirst(repository: string, tag: string, name: string)
    ensures HOST <= AssetUrl(repository, tag, name)
    ensures HOST + AssetUrl(repository, tag, name)[|HOST|..] == AssetUrl(repository, tag, name)
  {
    assert AssetUrl(repository, tag, name) == HOST + ("/" + repository + "/releases/download/" + tag + "/" + name);
  }
}
