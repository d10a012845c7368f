/** String formatting helpers (src/utils/format.ts): shortening addresses,
    recognising address-like strings, and turning setting keys into labels.
    Case mapping is the ASCII one; URL parsing is an input. */
module Format {
  import opened Wrappers
  import opened Strings

  // ---------------------------------------------------------------------------
  // getAppURL, getCommunityUrl

  /** The parts of `new URL(link)` that are read. */
  datatype ParsedUrl = ParsedUrl(host: string, hostname: string, pathname: string)

  /** `new URL(link)` throws on a malformed link. */
  datatype UrlError = InvalidUrl

  /** getAppURL; `parse` stands for `new URL`, None where it throws. */
  function GetAppUrl(link: string, parse: string -> Option<ParsedUrl>): Result<string, UrlError> {
    if link == "" then Success("")
    else match parse(link)
      case None => Failure(InvalidUrl)
      case Some(url) => Success(url.host)
  }

  /** getCommunityUrl: the host name followed by the path, unless the path
      is the root. */
  function GetCommunityUrl(link: string, parse: string -> Option<ParsedUrl>): Result<string, UrlError> {
    if link == "" then Success("")
    else match parse(link)
      case None => Failure(InvalidUrl)
      case Some(url) => Success(url.hostname + (if url.pathname != "/" && url.pathname != "" then url.pathname else ""))
  }

  /** An empty link gives "" without being parsed; otherwise the results
      are the host, and the host name with any non-root path. */
  lemma UrlHelpers(link: string, parse: string -> Option<ParsedUrl>)
    ensures link == "" ==> GetAppUrl(link, parse) == Success("") && GetCommunityUrl(link, parse) == Success("")
    ensures link != "" && parse(link).None? ==> GetAppUrl(link, parse).Failure? && GetCommunityUrl(link, parse).Failure?
    ensures link != "" && parse(link).Some? ==>
      GetAppUrl(link, parse) == Success(parse(link).value.host) &&
      GetCommunityUrl(link, parse).Success? &&
      StartsWith(GetCommunityUrl(link, parse).value, parse(link).value.hostname)
    ensures link != "" && parse(link).Some? && parse(link).value.pathname == "/" ==>
      GetCommunityUrl(link, parse) == Success(parse(link).value.hostname)
    ensures link != "" && parse(link).Some? && parse(link).value.pathname != "/" && parse(link).value.pathname != "" ==>
      GetCommunityUrl(link, parse) == Success(parse(link).value.hostname + parse(link).value.pathname)
  {
    if link != "" && parse(link).Some? {
      var url := parse(link).value;
      var r := GetCommunityUrl(link, parse).value;
      assert r[..|url.hostname|] == url.hostname;
      assert url.hostname + "" == url.hostname;
    }
  }

  // ---------------------------------------------------------------------------
  // formatAddress

  const DefaultAddressCount: int := 13

  function Clamp(i: int, n: nat): (c: nat)
    ensures c <= n
  {
    if i < 0 then 0 else if i > n then n else i
  }

  /** `s.substring(start, end)`: both ends clamped to the string, swapped
      when the start is past the end. */
  function Substring(s: string, start: int, end: int): (r: string)
    ensures |r| <= |s|
  {
    var a := Clamp(start, |s|);
    var b := Clamp(end, |s|);
    if a <= b then s[a..b] else s[b..a]
  }

  /** formatAddress; `count` is None when omitted (13). */
  function FormatAddress(address: string, count: Option<int>): string {
    var c := count.GetOr(DefaultAddressCount);
    Substring(address, 0, c) + "..." + Substring(address, |address| - c, |address|)
  }

  /** The first and last `count` characters around "...", so 2*count+3
      characters in all, when the address has at least `count` characters;
      the whole address twice when it is shorter; only "..." for a negative
      count. */
  lemma FormatAddressShape(address: string, count: Option<int>)
    ensures var c := count.GetOr(13);
      var r := FormatAddress(address, count);
      (0 <= c <= |address| ==> r == address[..c] + "..." + address[|address| - c..] && |r| == 2 * c + 3) &&
      (c > |address| ==> r == address + "..." + address) &&
      (c < 0 ==> r == "...")
  {
    var c := count.GetOr(13);
    if c > |address| {
      assert Substring(address, 0, c) == address[0..|address|];
      assert Substring(address, |address| - c, |address|) == address[0..|address|];
      assert address[0..|address|] == address;
    }
  }

  // ---------------------------------------------------------------------------
  // isAddressFormat

  const AddressLength: nat := 43

  /** A character of `[a-z0-9_-]` under the case-insensitive flag. */
  predicate IsAddressChar(c: char) {
    'a' <= c <= 'z' || 'A' <= c <= 'Z' || '0' <= c <= '9' || c == '_' || c == '-'
  }

  /** 43 address characters starting at `j`. */
  predicate Window(s: string, j: int) {
    0 <= j && j + AddressLength <= |s| && forall k :: j <= k < j + AddressLength ==> IsAddressChar(s[k])
  }

  /** The regular expression test, scanning left to right with the length
      `run` of the current run of address characters. */
  function ScanForAddress(s: string, i: nat, run: nat): bool
    requires i <= |s|
    decreases |s| - i
  {
    if run >= AddressLength then true
    else if i == |s| then false
    else ScanForAddress(s, i + 1, if IsAddressChar(s[i]) then run + 1 else 0)
  }

  /** `run` is the length of the run of address characters ending before `i`. */
  predicate RunEndsAt(s: string, i: nat, run: nat) {
    i <= |s| && run <= i &&
    (forall k :: i - run <= k < i ==> IsAddressChar(s[k])) &&
    (run < i ==> !IsAddressChar(s[i - run - 1]))
  }

  lemma {:induction false} ScanForAddressCorrect(s: string, i: nat, run: nat)
    requires RunEndsAt(s, i, run) && run <= AddressLength
    requires run < AddressLength ==> forall j :: 0 <= j && j + AddressLength <= i ==> !Window(s, j)
    ensures ScanForAddress(s, i, run) <==> exists j :: Window(s, j)
    decreases |s| - i
  {
    if run >= AddressLength {
      assert Window(s, i - AddressLength);
    } else if i == |s| {
    } else {
      var next := if IsAddressChar(s[i]) then run + 1 else 0;
      assert RunEndsAt(s, i + 1, next);
      if next < AddressLength {
        forall j | 0 <= j && j + AddressLength <= i + 1 ensures !Window(s, j) {
          if j + AddressLength == i + 1 {
            assert j <= i - next;
            assert !IsAddressChar(s[i - next]);
          }
        }
      }
      ScanForAddressCorrect(s, i + 1, next);
    }
  }

  /** isAddressFormat: some 43 consecutive characters are address
      characters. The test is unanchored. */
  function IsAddressFormat(s: string): (b: bool)
    ensures b <==> exists j :: Window(s, j)
  {
    ScanForAddressCorrect(s, 0, 0);
    ScanForAddress(s, 0, 0)
  }

  /** Because the test is unanchored, text around an address-like string
      does not change the answer, and shorter strings never pass. */
  lemma IsAddressFormatUnanchored(s: string, before: string, after: string)
    ensures IsAddressFormat(s) ==> IsAddressFormat(before + s + after)
    ensures |s| < AddressLength ==> !IsAddressFormat(s)
  {
    if IsAddressFormat(s) {
      var j :| Window(s, j);
      var t := before + s + after;
      forall k | j + |before| <= k < j + |before| + AddressLength ensures IsAddressChar(t[k]) {
        assert t[k] == s[k - |before|];
      }
      assert Window(t, j + |before|);
    }
  }

  // ---------------------------------------------------------------------------
  // formatSettingName

  function ToUpper(c: char): char {
    if 'a' <= c <= 'z' then (c as int - 32) as char else c
  }

  function ToLower(c: char): char {
    if 'A' <= c <= 'Z' then (c as int + 32) as char else c
  }

  function LowerAll(w: string): (r: string)
    ensures |r| == |w|
  {
    if |w| == 0 then "" else [ToLower(w[0])] + LowerAll(w[1..])
  }

  /** `word.charAt(0).toUpperCase() + word.slice(1).toLowerCase()` */
  function Capitalize(w: string): string {
    if |w| == 0 then "" else [ToUpper(w[0])] + LowerAll(w[1..])
  }

  function CapitalizeAll(words: seq<string>): (r: seq<string>)
    ensures |r| == |words|
  {
    if |words| == 0 then [] else [Capitalize(words[0])] + CapitalizeAll(words[1..])
  }

  /** formatSettingName. */
  function FormatSettingName(name: string): string {
    if name == "" then ""
    else if name == "arconfetti" then "ArConfetti"
    else if name == "ao_support" then "ao support"
    else Join(CapitalizeAll(Split(name, '_')), " ")
  }

  /** A character-by-character reference: '_' becomes a space, a character
      opening a word is upper-cased and any other is lower-cased. */
  function Labelled(s: string, atWordStart: bool): (r: string)
    ensures |r| == |s|
  {
    if |s| == 0 then ""
    else if s[0] == '_' then " " + Labelled(s[1..], true)
    else [if atWordStart then ToUpper(s[0]) else ToLower(s[0])] + Labelled(s[1..], false)
  }

  /** The words of a split, the first one capitalised only at a word start. */
  function CaseWords(words: seq<string>, atWordStart: bool): seq<string> {
    if |words| == 0 then []
    else [if atWordStart then Capitalize(words[0]) else LowerAll(words[0])] + CapitalizeAll(words[1..])
  }

  lemma CaseCons(c: char, y: string)
    ensures Capitalize([c] + y) == [ToUpper(c)] + LowerAll(y)
    ensures LowerAll([c] + y) == [ToLower(c)] + LowerAll(y)
  {
    assert ([c] + y)[1..] == y;
  }

  /** A character put in front of the first word comes first in the join. */
  lemma JoinConsFirst(ch: char, x: string, rest: seq<string>)
    ensures Join([[ch] + x] + rest, " ") == [ch] + Join([x] + rest, " ")
  {
    if |rest| > 0 {
      JoinUnfold([[ch] + x] + rest, " ");
      JoinUnfold([x] + rest, " ");
      assert ([[ch] + x] + rest)[1..] == rest;
      assert ([x] + rest)[1..] == rest;
    }
  }

  lemma {:induction false} CaseWordsAgree(s: string, atWordStart: bool)
    ensures Join(CaseWords(Split(s, '_'), atWordStart), " ") == Labelled(s, atWordStart)
    decreases |s|
  {
    if |s| == 0 {
    } else {
      var p := Split(s[1..], '_');
      CaseWordsAgree(s[1..], s[0] == '_');
      if s[0] == '_' {
        assert Split(s, '_') == [""] + p;
        assert CaseWords([""] + p, atWordStart) == [""] + CaseWords(p, true);
        JoinUnfold([""] + CaseWords(p, true), " ");
        assert ([""] + CaseWords(p, true))[1..] == CaseWords(p, true);
      } else {
        var first := [s[0]] + p[0];
        assert Split(s, '_') == [first] + p[1..];
        CaseCons(s[0], p[0]);
        var ch := if atWordStart then ToUpper(s[0]) else ToLower(s[0]);
        assert CaseWords([first] + p[1..], atWordStart) == [[ch] + LowerAll(p[0])] + CapitalizeAll(p[1..]);
        assert CaseWords(p, false) == [LowerAll(p[0])] + CapitalizeAll(p[1..]);
        JoinConsFirst(ch, LowerAll(p[0]), CapitalizeAll(p[1..]));
      }
    }
  }

  /** Outside the three special names, the label is the character-wise
      reference: the same length, '_' turned into a space, each word
      capitalised and the rest lower case. The special names keep their
      length too. */
  lemma FormatSettingNameIsLabelled(name: string)
    ensures name != "arconfetti" && name != "ao_support" ==> FormatSettingName(name) == Labelled(name, true)
    ensures |FormatSettingName(name)| == |name|
  {
    if name != "" && name != "arconfetti" && name != "ao_support" {
      CaseWordsAgree(name, true);
      assert CaseWords(Split(name, '_'), true) == CapitalizeAll(Split(name, '_'));
    }
  }

  /** A space appears in the reference label exactly where there was an
      '_' or a space. */
  lemma {:induction false} LabelledSpaces(s: string, atWordStart: bool)
    ensures Count(Labelled(s, atWordStart), ' ') == Count(s, '_') + Count(s, ' ')
    decreases |s|
  {
    if |s| > 0 {
      LabelledSpaces(s[1..], s[0] == '_');
      var r := Labelled(s, atWordStart);
      assert r[1..] == Labelled(s[1..], s[0] == '_');
    }
  }

  /** For a name without spaces the label has as many space-separated
      words as the name has '_'-separated ones. */
  lemma FormatSettingNameWordCount(name: string)
    requires name != "arconfetti" && name != "ao_support"
    requires ' ' !in name
    ensures |Split(FormatSettingName(name), ' ')| == |Split(name, '_')|
  {
    FormatSettingNameIsLabelled(name);
    LabelledSpaces(name, true);
    assert Count(name, ' ') == 0 by { NoCount(name, ' '); }
  }

  lemma {:induction false} NoCount(s: string, c: char)
    requires c !in s
    ensures Count(s, c) == 0
  {
    if |s| > 0 {
      assert c !in s[1..] by {
        forall k | 0 <= k < |s[1..]| ensures s[1..][k] != c { assert s[1..][k] == s[k + 1]; }
      }
      NoCount(s[1..], c);
    }
  }

  /** The special names. */
  lemma SpecialSettingNames()
    ensures FormatSettingName("") == ""
    ensures FormatSettingName("arconfetti") == "ArConfetti"
    ensures FormatSettingName("ao_support") == "ao support"
  {
  }
}
