/** The front end's build-time settings: every unset variable reads as the empty string, and the
    admin allow-list is parsed from a comma-separated variable. */
module Env {
  import opened Wrappers
  import opened Seqs
  import opened Text

  /** One allow-list entry as the map step leaves it: `addr.trim().toLowerCase()`. */
  function Normalize(entry: string): (n: string)
    ensures |n| <= |entry|
    ensures forall i :: 0 <= i < |n| ==> !IsUpper(n[i])
  {
    ToLower(Trim(entry))
  }

  /** A normalized entry neither starts nor ends with white space. */
  lemma NormalizeTrimmed(entry: string)
    ensures var n := Normalize(entry);
      n == [] || (!IsSpace(n[0]) && !IsSpace(n[|n| - 1]))
  {
    var t := Trim(entry);
    var n := ToLower(t);
    assert Normalize(entry) == n;
    if t != [] {
      var first, last := t[0], t[|t| - 1];
      assert n[0] == LowerChar(first) && n[|n| - 1] == LowerChar(last);
      LowerCharSpace(first);
      LowerCharSpace(last);
    }
  }

  /** Normalizing an entry without a comma leaves it without a comma. */
  lemma NormalizeNoComma(entry: string)
    requires ',' !in entry
    ensures ',' !in Normalize(entry)
  {
    var t := Trim(entry);
    var n := ToLower(t);
    TrimKeepsOut(entry, ',');
    forall i | 0 <= i < |n| ensures n[i] != ',' {
      assert t[i] in t;
    }
  }

  /** A string normalization leaves as it is: no white space at either end, no upper case. */
  predicate IsNormal(a: string) {
    (a == [] || (!IsSpace(a[0]) && !IsSpace(a[|a| - 1])))
    && forall i :: 0 <= i < |a| ==> !IsUpper(a[i])
  }

  /** Normalizing a string already in normal form changes nothing. */
  lemma NormalizeFixes(a: string)
    requires IsNormal(a)
    ensures Normalize(a) == a
  {
    assert TrimStart(a) == a;
    assert TrimEnd(a) == a;
    assert Trim(a) == a;
    assert ToLower(a) == a;
  }

  /** Every normalized entry is in normal form. */
  lemma NormalizeIsNormal(entry: string)
    ensures IsNormal(Normalize(entry))
  {
    NormalizeTrimmed(entry);
  }

  /** Normalization is idempotent: an entry normalized twice is the entry normalized once. */
  lemma NormalizeIdempotent(entry: string)
    ensures Normalize(Normalize(entry)) == Normalize(entry)
  {
    NormalizeIsNormal(entry);
    NormalizeFixes(Normalize(entry));
  }

  /** `filter(Boolean)` on strings: only the empty string is dropped. */
  predicate NonEmpty(s: string) {
    s != ""
  }

  /** `adminAddresses`: the variable, or "" when unset, split on commas, each piece normalized,
      and the empty pieces dropped. An unset variable gives an empty list. */
  function AdminAddresses(raw: Option<string>): (admins: seq<string>)
    ensures raw.None? ==> admins == []
  {
    var pieces := Split(raw.GetOr(""), ',');
    assert raw.None? ==> pieces == [""];
    Filter(NonEmpty, Map(Normalize, pieces))
  }

  /** Every entry on the list is some comma-separated piece of the variable, normalized. */
  lemma AdminAddressesSound(raw: string, a: string)
    requires a in AdminAddresses(Some(raw))
    ensures a != ""
    ensures exists i :: 0 <= i < |Split(raw, ',')| && Normalize(Split(raw, ',')[i]) == a
  {
    var normalized := Map(Normalize, Split(raw, ','));
    assert a in normalized && NonEmpty(a);
    var i :| 0 <= i < |normalized| && normalized[i] == a;
  }

  /** Every piece of the variable that does not normalize to the empty string is on the list. */
  lemma AdminAddressesComplete(raw: string, i: nat)
    requires i < |Split(raw, ',')|
    ensures var a := Normalize(Split(raw, ',')[i]);
      a != "" ==> a in AdminAddresses(Some(raw))
  {
    var normalized := Map(Normalize, Split(raw, ','));
    assert normalized[i] in normalized;
  }

  /** Every entry on the list is non-empty, comma-free, lower-case and trimmed. */
  lemma AdminEntryShape(raw: Option<string>, a: string)
    requires a in AdminAddresses(raw)
    ensures a != "" && ',' !in a && !IsSpace(a[0]) && !IsSpace(a[|a| - 1])
    ensures forall i :: 0 <= i < |a| ==> !IsUpper(a[i])
    ensures IsNormal(a)
  {
    var r := raw.GetOr("");
    assert AdminAddresses(raw) == AdminAddresses(Some(r));
    AdminAddressesSound(r, a);
    var i :| 0 <= i < |Split(r, ',')| && Normalize(Split(r, ',')[i]) == a;
    assert Split(r, ',')[i] in Split(r, ',');
    NormalizeTrimmed(Split(r, ',')[i]);
    NormalizeNoComma(Split(r, ',')[i]);
    NormalizeIsNormal(Split(r, ',')[i]);
  }

  /** The list keeps the variable's order: the list for `a,b` is the list for `a` followed by the
      list for `b`. */
  lemma AdminAddressesConcat(a: string, b: string)
    ensures AdminAddresses(Some(a + [','] + b)) == AdminAddresses(Some(a)) + AdminAddresses(Some(b))
  {
    SplitAround(a, b, ',');
    MapConcat(Normalize, Split(a, ','), Split(b, ','));
    FilterConcat(NonEmpty, Map(Normalize, Split(a, ',')), Map(Normalize, Split(b, ',')));
  }

  /** A list of non-empty, comma-free entries in normal form, written into the variable joined
      by commas, reads back as the same list: the allow-list parser loses nothing it could keep. */
  lemma AdminAddressesRoundTrip(admins: seq<string>)
    requires |admins| >= 1
    requires forall a :: a in admins ==> a != "" && ',' !in a && IsNormal(a)
    ensures AdminAddresses(Some(Join(admins, ','))) == admins
  {
    SplitJoin(admins, ',');
    assert Split(Join(admins, ','), ',') == admins;
    forall i | 0 <= i < |admins| ensures Normalize(admins[i]) == admins[i] {
      assert admins[i] in admins;
      NormalizeFixes(admins[i]);
    }
    assert Map(Normalize, admins) == admins;
    forall i | 0 <= i < |admins| ensures NonEmpty(admins[i]) {
      assert admins[i] in admins;
    }
    FilterKeepsAll(NonEmpty, admins);
  }

  /** The settings as read from the process environment; `None` is an unset variable. */
  datatype RawEnv = RawEnv(
    contractAddress: Option<string>,
    rpcUrl: Option<string>,
    usdcAddress: Option<string>,
    walrusUploadUrl: Option<string>,
    walrusMetadataBase: Option<string>,
    adminAddresses: Option<string>,
    leaderboardUrl: Option<string>)

  /** The `env` object. */
  datatype Settings = Settings(
    contractAddress: string,
    rpcUrl: string,
    usdcAddress: string,
    walrusUploadUrl: string,
    walrusMetadataBase: string,
    adminAddresses: seq<string>,
    leaderboardUrl: string)

  /** A setting: its value, or "" when unset. */
  function OrEmpty(v: Option<string>): (s: string)
    ensures v.None? ==> s == ""
    ensures v.Some? ==> s == v.value
  {
    v.GetOr("")
  }

  /** `env`: every string setting is its variable, or "" when unset, and the allow-list is
      parsed as above. */
  function LoadEnv(raw: RawEnv): (e: Settings)
    ensures e.contractAddress == OrEmpty(raw.contractAddress) && e.rpcUrl == OrEmpty(raw.rpcUrl)
    ensures e.usdcAddress == OrEmpty(raw.usdcAddress) && e.walrusUploadUrl == OrEmpty(raw.walrusUploadUrl)
    ensures e.walrusMetadataBase == OrEmpty(raw.walrusMetadataBase)
    ensures e.leaderboardUrl == OrEmpty(raw.leaderboardUrl)
    ensures e.adminAddresses == AdminAddresses(raw.adminAddresses)
    ensures raw.contractAddress.None? ==> e.contractAddress == ""
    ensures raw.walrusUploadUrl.None? ==> e.walrusUploadUrl == ""
    ensures raw.walrusMetadataBase.None? ==> e.walrusMetadataBase == ""
    ensures raw.adminAddresses.None? ==> e.adminAddresses == []
  {
    Settings(OrEmpty(raw.contractAddress), OrEmpty(raw.rpcUrl), OrEmpty(raw.usdcAddress),
      OrEmpty(raw.walrusUploadUrl), OrEmpty(raw.walrusMetadataBase),
      AdminAddresses(raw.adminAddresses), OrEmpty(raw.leaderboardUrl))
  }
}
