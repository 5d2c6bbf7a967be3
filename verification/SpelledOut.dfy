/** The names, URLs and texts of a candidate, spelled out. */
module SpelledOut {
  import opened Releases
  import opened AssetUrl
  import opened CandidateFiles
  import opened Distribution

  lemma {:induction false} DatabaseNames()
    ensures DbName(Alpha) == "mister-magik-alpha-db.json"
    ensures DbName(Beta) == "mister-magik-beta-db.json"
    ensures DbName(Stable) == "mister-magik-release-db.json"
  {
  }

  lemma {:induction false} ZipNames()
    ensures ZipName(Alpha) == "mister-magik-alpha-db.json.zip"
    ensures ZipName(Beta) == "mister-magik-beta-db.json.zip"
    ensures ZipName(Stable) == "mister-magik-release-db.json.zip"
  {
  }

  lemma {:induction false} InstallerNames()
    ensures InstallerName(Beta) == "mister-magik-beta-installer.zip"
    ensures InstallerName(Stable) == "mister-magik-release-installer.zip"
  {
  }

  lemma {:induction false} FixedNames()
    ensures RECEIPT_FILE == "release-assets.json" && VALIDATED_FILE == "validated-candidate.json"
    ensures EVIDENCE_FILE == "delivery-evidence.json" && SUMS == "SHA256SUMS"
    ensures RECEIPT_FORMAT == "mister-magik-release-assets-v1" && DB_ID == "mister_magik"
  {
  }

  lemma {:induction false} UrlText(repository: string, tag: string, asset: string)
    ensures Url(repository, tag, asset)
      == "https" + ("://github.com/" + (repository + ("/releases/download/" + (tag + ("/" + asset)))))
  {
  }

  // ---------------------------------------------------------------- numbers

  function Digit(c: char): nat {
    if '0' <= c <= '9' then c as int - '0' as int else 0
  }

  function ValueOf(s: string): nat {
    if s == "" then 0 else 10 * ValueOf(s[..|s| - 1]) + Digit(s[|s| - 1])
  }

  /** The decimal form of a number: digits only, the value of which is the number, without a leading zero. */
  lemma {:induction false} DecimalExactly(n: nat)
    ensures Decimal(n) != "" && ValueOf(Decimal(n)) == n && (n > 0 ==> Decimal(n)[0] != '0')
  {
    if n < 10 {
      assert Decimal(n)[..0] == "";
    } else {
      DecimalExactly(n / 10);
      assert Decimal(n)[..|Decimal(n)| - 1] == Decimal(n / 10);
    }
  }

  lemma {:induction false} VersionText(build: nat)
    ensures VersionOf(build) == "0.2." + Decimal(build)
  {
  }

  // ---------------------------------------------------------------- installers

  lemma {:induction false} ZipText(ch: Channel)
    ensures "mister-magik-" + (InstalledLabel(ch) + ("-db.json.zip" + "\n")) == ZipName(ch) + "\n"
  {
    var channel, ending := InstalledLabel(ch), "-db.json.zip";
    assert "mister-magik-" + (channel + (ending + "\n")) == ("mister-magik-" + (channel + ending)) + "\n";
  }

  /** The settings in an installer name the zip file of its own channel. */
  lemma {:induction false} InstallerNamesOwnFeed(repository: string, ch: Channel)
    ensures ExpectedIni(repository, ch)
      == "[mister_magik]\n" + ("db_url = " + ("https://raw.githubusercontent.com/" + (repository
         + ("/downloader/" + (ZipName(ch) + "\n")))))
  {
    ZipText(ch);
  }
}
