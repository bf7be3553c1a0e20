/** The MultiSafepay Einvoice payment processor's own logic: splitting a street
    line into street name and house number, mapping a session language to a
    gateway locale, and resolving settings and the API environment. */
module Einvoice {
  import opened Wrappers
  import opened PhpRuntime
  import opened PhpCompare

  // ---------------------------------------------------------------------------
  // rstrpos
  // ---------------------------------------------------------------------------

  /** `rstrpos($haystack, $needle, $offset)` for a one-character needle: search
      the reversed string from `strlen - offset` and map the hit back. A `null`
      offset (`None`) searches the whole string. The result is the last
      position before `offset` that holds `needle`. */
  function Rstrpos(haystack: string, needle: char, offset: Option<nat>): (r: Option<nat>)
    requires offset.Some? ==> offset.value <= |haystack|
    ensures r.Some? ==> r.value < SearchEnd(haystack, offset) && haystack[r.value] == needle
    ensures r.Some? ==> forall k :: r.value < k < SearchEnd(haystack, offset) ==> haystack[k] != needle
    ensures r.None? <==> forall k :: 0 <= k < SearchEnd(haystack, offset) ==> haystack[k] != needle
  {
    var size := |haystack|;
    var from := SearchEnd(haystack, offset);
    ReverseMirrors(haystack);
    match Strpos(Reverse(haystack), needle, size - from)
    case None =>
      assert forall k :: 0 <= k < from ==> haystack[k] != needle;
      None
    case Some(pos) =>
      assert haystack[size - pos - 1] == needle;
      assert forall k :: size - pos - 1 < k < from ==> haystack[k] != needle;
      Some(size - pos - 1)
  }

  /** Character `k` of a string is character `len - 1 - k` of its reverse. */
  lemma ReverseMirrors(s: string)
    ensures forall k :: 0 <= k < |s| ==> s[k] == Reverse(s)[|s| - 1 - k]
  {
  }

  /** The end of the part `rstrpos` searches: the offset, or the whole string for `null`. */
  function SearchEnd(haystack: string, offset: Option<nat>): nat
  {
    if offset.None? then |haystack| else offset.value
  }

  // ---------------------------------------------------------------------------
  // parseAddress
  // ---------------------------------------------------------------------------

  /** The street line split into the street name and the house number. */
  datatype StreetAddress = StreetAddress(street: string, houseNumber: string)

  /** The house-number trim list of the leading-number case: ", \t\n\r\0\x0B". */
  const HouseNumberTrim: set<char> := TrimDefault + {','}

  /** Position `i` is a space immediately followed by a digit. */
  predicate DigitSpaceAt(s: string, i: int)
  {
    0 <= i < |s| - 1 && s[i] == ' ' && IsDigit(s[i + 1])
  }

  /** The last digit-preceding space before `bound`, if there is one. */
  function LastDigitSpace(s: string, bound: nat): (r: Option<nat>)
    requires bound <= |s|
    ensures r.Some? ==> r.value < bound && DigitSpaceAt(s, r.value)
    ensures r.Some? ==> forall j :: r.value < j < bound ==> !DigitSpaceAt(s, j)
    ensures r.None? <==> forall j :: 0 <= j < bound ==> !DigitSpaceAt(s, j)
  {
    if bound == 0 then None
    else if DigitSpaceAt(s, bound - 1) then Some(bound - 1)
    else LastDigitSpace(s, bound - 1)
  }

  /** The result of `parseAddress`'s loop: the line split at its last
      digit-preceding space, both halves trimmed, or the line unchanged with
      no house number. */
  function FirstPass(s: string): StreetAddress
  {
    match LastDigitSpace(s, |s|)
    case Some(k) => StreetAddress(Trim(s[..k], TrimDefault), Trim(s[k + 1..], TrimDefault))
    case None => StreetAddress(s, "")
  }

  /** What `parseAddress` returns, stated without its loop: the first pass; then,
      if that gave no house number (or PHP's `empty` house number "0") and the
      line starts with a digit, the token before the first space as the house
      number instead. */
  function SplitAddress(s: string): StreetAddress
  {
    var first := FirstPass(s);
    if IsEmpty(first.houseNumber) && |s| > 0 && IsDigit(s[0]) then
      match Strpos(s, ' ', 0)
      case Some(p) => StreetAddress(Trim(s[p + 1..], TrimDefault), Trim(s[..p], HouseNumberTrim))
      case None => first
    else first
  }

  /** A digit-preceding space with none after it is the one `LastDigitSpace` finds. */
  lemma LastDigitSpaceIs(s: string, k: nat)
    requires DigitSpaceAt(s, k)
    requires forall j :: k < j < |s| ==> !DigitSpaceAt(s, j)
    ensures LastDigitSpace(s, |s|) == Some(k)
  {
  }

  /** `parseAddress`: walk the spaces from right to left with `Rstrpos`,
      stopping at the first one followed by a digit; then fall back to a
      leading number. */
  method ParseAddress(streetAddress: string) returns (r: StreetAddress)
    ensures r == SplitAddress(streetAddress)
  {
    var s := streetAddress;
    var address := s;
    var apartment := "";
    var offset: nat := |s|;
    var found := Rstrpos(s, ' ', Some(offset));
    ghost var split := false;
    while found.Some?
      invariant offset <= |s|
      invariant found == Rstrpos(s, ' ', Some(offset))
      invariant forall j :: offset <= j < |s| ==> !DigitSpaceAt(s, j)
      invariant address == s && apartment == "" && !split
      decreases offset
    {
      var previous := offset;
      offset := found.value;
      assert forall j :: offset < j < previous ==> s[j] != ' ';
      if offset < |s| - 1 && IsDigit(s[offset + 1]) {
        address := Trim(s[..offset], TrimDefault);
        apartment := Trim(s[offset + 1..], TrimDefault);
        LastDigitSpaceIs(s, offset);
        assert StreetAddress(address, apartment) == FirstPass(s);
        split := true;
        break;
      }
      found := Rstrpos(s, ' ', Some(offset));
    }
    if !split {
      assert forall j :: 0 <= j < |s| ==> !DigitSpaceAt(s, j);
      assert StreetAddress(address, apartment) == FirstPass(s);
    }

    if IsEmpty(apartment) && |s| > 0 && IsDigit(s[0]) {
      var pos := Strpos(s, ' ', 0);
      if pos.Some? {
        apartment := Trim(s[..pos.value], HouseNumberTrim);
        address := Trim(s[pos.value + 1..], TrimDefault);
      }
    }
    r := StreetAddress(address, apartment);
  }

  /** The house number found at the last digit-preceding space is the trimmed
      rest of the line after it and starts with that digit; the street is the
      trimmed part before it. Only a house number of exactly "0" on a line that
      starts with a digit lets the leading-number rule override it. */
  lemma SplitAtLastDigitSpace(s: string, k: nat)
    requires DigitSpaceAt(s, k)
    requires forall j :: k < j < |s| ==> !DigitSpaceAt(s, j)
    requires Trim(s[k + 1..], TrimDefault) != "0" || !IsDigit(s[0])
    ensures SplitAddress(s) == StreetAddress(Trim(s[..k], TrimDefault), Trim(s[k + 1..], TrimDefault))
    ensures SplitAddress(s).houseNumber != "" && IsDigit(SplitAddress(s).houseNumber[0])
  {
    LastDigitSpaceIs(s, k);
    TrimKeepsFirst(s[k + 1..], TrimDefault);
  }

  /** When the first pass found no house number, or found PHP-`empty` "0", a
      line that starts with a digit and holds a space splits at its first space: the token before it, trimmed of
      ", \t\n\r\0\x0B", is the house number and starts with the line's first
      digit; the trimmed rest is the street. */
  lemma SplitLeadingNumber(s: string, p: nat)
    requires (forall j :: 0 <= j < |s| ==> !DigitSpaceAt(s, j)) || FirstPass(s).houseNumber == "0"
    requires |s| > 0 && IsDigit(s[0])
    requires p < |s| && s[p] == ' ' && forall j :: 0 <= j < p ==> s[j] != ' '
    ensures SplitAddress(s) == StreetAddress(Trim(s[p + 1..], TrimDefault), Trim(s[..p], HouseNumberTrim))
    ensures SplitAddress(s).houseNumber != "" && SplitAddress(s).houseNumber[0] == s[0]
  {
    assert Strpos(s, ' ', 0) == Some(p);
    assert p > 0;
    TrimKeepsFirst(s[..p], HouseNumberTrim);
  }

  /** A line with no digit-preceding space that does not start with a digit,
      or holds no space at all, comes back untouched (not even trimmed) with an
      empty house number. */
  lemma SplitWithoutNumber(s: string)
    requires forall j :: 0 <= j < |s| ==> !DigitSpaceAt(s, j)
    requires |s| == 0 || !IsDigit(s[0]) || forall j :: 0 <= j < |s| ==> s[j] != ' '
    ensures SplitAddress(s) == StreetAddress(s, "")
  {
  }

  /** Whatever the line, the house number is empty or starts with a digit, and
      it is empty exactly when neither rule applies: no space is followed by a
      digit, and the line does not both start with a digit and hold a space. */
  lemma HouseNumberShape(s: string)
    ensures var h := SplitAddress(s).houseNumber;
            h == [] || IsDigit(h[0])
    ensures SplitAddress(s).houseNumber == [] <==>
              (forall j :: 0 <= j < |s| ==> !DigitSpaceAt(s, j))
              && (|s| == 0 || !IsDigit(s[0]) || forall j :: 0 <= j < |s| ==> s[j] != ' ')
  {
    var first := FirstPass(s);
    match LastDigitSpace(s, |s|)
    case Some(k) =>
      TrimKeepsFirst(s[k + 1..], TrimDefault);
      if IsEmpty(first.houseNumber) && IsDigit(s[0]) {
        var p := Strpos(s, ' ', 0).value;
        assert p > 0;
        TrimKeepsFirst(s[..p], HouseNumberTrim);
      }
    case None =>
      if |s| > 0 && IsDigit(s[0]) && Strpos(s, ' ', 0).Some? {
        var p := Strpos(s, ' ', 0).value;
        SplitLeadingNumber(s, p);
      }
  }

  /** "Main Street 42" splits at its last space. */
  lemma SplitExampleTrailingNumber()
    ensures SplitAddress("Main Street 42") == StreetAddress("Main Street", "42")
  {
    var s := "Main Street 42";
    assert DigitSpaceAt(s, 11);
    assert s[..11] == "Main Street" && s[12..] == "42";
    TrimUnchanged("Main Street", TrimDefault);
    TrimUnchanged("42", TrimDefault);
    SplitAtLastDigitSpace(s, 11);
  }

  /** "42 Main Street" takes its leading number. */
  lemma SplitExampleLeadingNumber()
    ensures SplitAddress("42 Main Street") == StreetAddress("Main Street", "42")
  {
    var s := "42 Main Street";
    assert forall j :: 0 <= j < |s| ==> !DigitSpaceAt(s, j);
    assert s[..2] == "42" && s[3..] == "Main Street";
    TrimUnchanged("Main Street", TrimDefault);
    TrimUnchanged("42", HouseNumberTrim);
    SplitLeadingNumber(s, 2);
  }

  /** "Main Street" has no house number. */
  lemma SplitExampleNoNumber()
    ensures SplitAddress("Main Street") == StreetAddress("Main Street", "")
  {
    var s := "Main Street";
    assert forall j :: 0 <= j < |s| ==> !DigitSpaceAt(s, j);
    SplitWithoutNumber(s);
  }

  /** PHP's `empty("0")` is true, so a house number "0" found at the last space
      does not stop the leading-number rule from replacing it. */
  lemma ZeroHouseNumberIsReplaced()
    ensures SplitAddress("1 Street 0") == StreetAddress("Street 0", "1")
  {
    var s := "1 Street 0";
    assert DigitSpaceAt(s, 8);
    LastDigitSpaceIs(s, 8);
    assert s[9..] == "0";
    assert Strpos(s, ' ', 0) == Some(1);
    assert s[..1] == "1" && s[2..] == "Street 0";
    TrimUnchanged("0", TrimDefault);
    TrimUnchanged("1", HouseNumberTrim);
    TrimUnchanged("Street 0", TrimDefault);
  }

  // ---------------------------------------------------------------------------
  // getLocaleFromLanguageCode
  // ---------------------------------------------------------------------------

  /** The gateway locale of each session language the processor knows. */
  const LocaleTable: map<string, string> := map[
    "nl" := "nl_NL", "en" := "en_GB", "fr" := "fr_FR", "es" := "es_ES",
    "de" := "de_DE", "it" := "it_IT", "sv" := "sv_SE", "tr" := "tr_TR",
    "cs" := "cs_CZ", "pl" := "pl_PL", "pt" := "pt_PT", "he" := "he_IL",
    "ru" := "ru_RU", "ar" := "ar_AR", "cn" := "zh_CN", "ro" := "ro_RO",
    "da" := "da_DK", "fi" := "fi_FI", "no" := "no_NO"]

  /** The nineteen language codes with a locale. */
  const KnownLanguages: set<string> := {
    "nl", "en", "fr", "es", "de", "it", "sv", "tr", "cs", "pl",
    "pt", "he", "ru", "ar", "cn", "ro", "da", "fi", "no"}

  predicate IsUpper(c: char)
  {
    'A' <= c <= 'Z'
  }

  /** `getLocaleFromLanguageCode`: the table's locale, or `null` for a code
      outside it. Every locale is a five-character `xx_YY` with an upper-case
      region; it repeats the language code, except that "cn" maps to "zh_CN". */
  function LocaleFromLanguageCode(code: string): (locale: Option<string>)
    ensures locale.Some? <==> code in KnownLanguages
    ensures locale.Some? ==>
              |locale.value| == 5 && locale.value[2] == '_'
              && IsUpper(locale.value[3]) && IsUpper(locale.value[4])
    ensures locale.Some? && code != "cn" ==> locale.value[..2] == code
    ensures code == "cn" ==> locale == Some("zh_CN")
  {
    if code in LocaleTable then Some(LocaleTable[code]) else None
  }

  // ---------------------------------------------------------------------------
  // getSetting, getPaymentSettings, getEnvironment
  // ---------------------------------------------------------------------------

  /** A payment method's stored settings; a missing name reads as `null`. */
  type Settings = map<string, string>

  /** The service name of the shared method record whose settings fill in for
      missing ones (the processor's `$settings` property). */
  const SharedMethodName := "MultiSafepay Connect"

  /** The settings names Einvoice declares (`getAvailableSettings`). */
  const AvailableSettings: seq<string> := ["prefix"]

  /** `getSetting`: the processor's own setting (`parent::getSetting`, given as
      `own`) unless it is `null`; then the same setting of the method record
      whose service name is "MultiSafepay Connect", looked up in `methods`; `null`
      when that record is missing or lacks the setting too. */
  function GetSetting(own: Settings, methods: map<string, Settings>, name: string): (r: Option<string>)
    ensures name in own ==> r == Some(own[name])
    ensures (name !in own && SharedMethodName in methods && name in methods[SharedMethodName])
              ==> r == Some(methods[SharedMethodName][name])
    ensures r.None? <==> name !in own && (SharedMethodName !in methods || name !in methods[SharedMethodName])
  {
    if name in own then Some(own[name])
    else if SharedMethodName in methods && name in methods[SharedMethodName] then
      Some(methods[SharedMethodName][name])
    else None
  }

  /** `getPaymentSettings`: one entry per available setting name, holding what
      `GetSetting` resolves for it. */
  method PaymentSettings(own: Settings, methods: map<string, Settings>, fields: seq<string>)
    returns (result: map<string, Option<string>>)
    ensures result.Keys == set f | f in fields
    ensures forall f :: f in result ==> result[f] == GetSetting(own, methods, f)
  {
    result := map[];
    for i := 0 to |fields|
      invariant result.Keys == set f | f in fields[..i]
      invariant forall f :: f in result ==> result[f] == GetSetting(own, methods, f)
    {
      assert fields[..i + 1] == fields[..i] + [fields[i]];
      result := result[fields[i] := GetSetting(own, methods, fields[i])];
    }
    assert fields[..|fields|] == fields;
  }

  const LiveApiUrl := "https://api.multisafepay.com/v1/json/"
  const TestApiUrl := "https://testapi.multisafepay.com/v1/json/"

  /** `getEnvironment`: the live API when the `account_type` setting is `== '1'`
      (a numeric string whose value is one), the test API otherwise, a missing
      setting included. */
  function Environment(own: Settings, methods: map<string, Settings>): (url: string)
    ensures url == LiveApiUrl || url == TestApiUrl
    ensures url == LiveApiUrl <==>
              var v := GetSetting(own, methods, "account_type");
              v.Some? && ParseNumeric(v.value).Some? && DenotesOne(ParseNumeric(v.value).value)
  {
    var accountType := GetSetting(own, methods, "account_type");
    LooseEqualsNullableOne(accountType);
    if LooseEqualsNullable(accountType, "1") then LiveApiUrl else TestApiUrl
  }

  /** `getPaymentSettings` of Einvoice, whose `getAvailableSettings` is
      `['prefix']`: a single entry for "prefix". */
  method EinvoicePaymentSettings(own: Settings, methods: map<string, Settings>)
    returns (result: map<string, Option<string>>)
    ensures result.Keys == {"prefix"}
    ensures result["prefix"] == GetSetting(own, methods, "prefix")
  {
    result := PaymentSettings(own, methods, AvailableSettings);
    assert (set f | f in AvailableSettings) == {"prefix"};
  }

  /** `account_type` "1" selects the live API, also when it only comes from the
      shared record; a missing one, or an own "0" over a shared "1", selects
      the test API. */
  lemma EnvironmentExamples()
    ensures Environment(map["account_type" := "1"], map[]) == LiveApiUrl
    ensures Environment(map[], map[SharedMethodName := map["account_type" := "1"]]) == LiveApiUrl
    ensures Environment(map[], map[]) == TestApiUrl
    ensures Environment(map["account_type" := "0"], map[SharedMethodName := map["account_type" := "1"]]) == TestApiUrl
  {
    ParseOne();
    assert ParseNumeric("0") == Some(Decimal(false, 0, 0)) by {
      var t := "0";
      assert DigitEnd(t, 1) == 1 && DigitEnd(t, 0) == 1;
      assert t[0..1] + t[1..1] == t;
    }
  }
}
