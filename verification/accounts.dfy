/** The `User` record of main.py and the company name it derives from the
    e-mail domain. */
module Accounts {
  import opened Ascii

  /** Domains of public mail providers, which do not name a company. */
  const CommonProviders: seq<string> :=
    ["gmail.com", "outlook.com", "hotmail.com", "yahoo.com", "aol.com", "icloud.com"]

  /** A stored user as the `User` constructor reads it: every optional field
      already defaulted (name, job title, department and provider id to "",
      role to "user"). */
  datatype UserRecord = UserRecord(
    email: string,
    name: string,
    jobTitle: string,
    department: string,
    role: string,
    microsoftId: string)

  /** `email.split('@')[1]`: the text between the first `@` and the next one. */
  function EmailDomain(email: string): string {
    BeforeFirst(AfterFirst(email, '@'), '@')
  }

  /** `User._extract_company_from_email`. */
  function ExtractCompany(email: string): (r: string)
    ensures '@' !in email ==> r == ""
    ensures '@' in email && EmailDomain(email) in CommonProviders ==> r == ""
    ensures '@' in email && EmailDomain(email) !in CommonProviders ==>
      r == Capitalize(BeforeFirst(EmailDomain(email), '.'))
  {
    if email == "" || '@' !in email then ""
    else
      var domain := EmailDomain(email);
      if domain in CommonProviders then ""
      else Capitalize(BeforeFirst(domain, '.'))
  }

  /** The company shown for a user. */
  function Company(u: UserRecord): string {
    ExtractCompany(u.email)
  }

  /** The domain is the segment that follows the first `@`: the e-mail splits as
      `local @ domain rest` with no `@` in `local` or `domain`, and `rest` either
      empty or starting with the next `@`. */
  lemma EmailDomainSplit(email: string)
    requires '@' in email
    ensures
      var local, after := BeforeFirst(email, '@'), AfterFirst(email, '@');
      var rest := after[|EmailDomain(email)|..];
      && email == local + "@" + EmailDomain(email) + rest
      && '@' !in local && '@' !in EmailDomain(email)
      && (rest == "" || rest[0] == '@')
  {
    var i := IndexOf(email, '@');
    var after := email[i + 1..];
    var j := IndexOf(after, '@');
    var local, domain, rest := email[..i], after[..j], after[j..];
    assert domain == EmailDomain(email);
    SplitAround(email, i, j);
    assert email == local + "@" + domain + rest;
    assert '@' !in local && '@' !in domain;
    assert rest == "" || rest[0] == '@';
  }

  lemma SplitAround(s: string, i: nat, j: nat)
    requires i < |s| && s[i] == '@' && j <= |s| - i - 1
    ensures s == s[..i] + "@" + s[i + 1..][..j] + s[i + 1..][j..]
  {
    var after := s[i + 1..];
    assert s == s[..i] + [s[i]] + after;
    assert after == after[..j] + after[j..];
  }

  /** A derived company name is one dot-free label of the domain: it contains
      neither `.` nor `@`, starts with a non-lower-case character, continues in
      lower case, and is the domain's first label up to case. */
  lemma {:induction false} CompanyShape(email: string)
    ensures '.' !in ExtractCompany(email) && '@' !in ExtractCompany(email)
    ensures forall i :: 1 <= i < |ExtractCompany(email)| ==> !IsUpper(ExtractCompany(email)[i])
    ensures |ExtractCompany(email)| > 0 ==> !IsLower(ExtractCompany(email)[0])
    ensures ExtractCompany(email) != "" ==>
      LowerStr(ExtractCompany(email)) == LowerStr(BeforeFirst(EmailDomain(email), '.'))
  {
    var r := ExtractCompany(email);
    if r != "" {
      var domain := EmailDomain(email);
      var head := BeforeFirst(domain, '.');
      assert r == Capitalize(head);
      assert '@' !in domain;
      assert head == domain[..IndexOf(domain, '.')];
      assert '@' !in head;
      assert '.' !in head;
      CaseMappingKeepsSeparators(head);
      assert LowerStr(r) == LowerStr(head) by {
        forall i | 0 <= i < |r|
          ensures LowerStr(r)[i] == LowerStr(head)[i]
        {
          if i == 0 {
            LowerOfUpper(head[0]);
          }
        }
      }
    }
  }

  lemma LowerOfUpper(c: char)
    ensures ToLower(ToUpper(c)) == ToLower(c)
  {
  }

  /** Case mapping never produces or removes `.` or `@`. */
  lemma CaseMappingKeepsSeparators(s: string)
    requires '.' !in s && '@' !in s
    ensures '.' !in Capitalize(s) && '@' !in Capitalize(s)
  {
    var r := Capitalize(s);
    forall i | 0 <= i < |r|
      ensures r[i] != '.' && r[i] != '@'
    {
      assert s[i] != '.' && s[i] != '@';
    }
  }

  /** A company domain gives its first label, capitalised. */
  lemma CompanyDomainExample()
    ensures ExtractCompany("alice@acme.co.uk") == "Acme"
  {
    AcmeDomain();
    AcmeLabel();
    NotAProvider();
    CapitalizeAcme();
  }

  lemma AcmeDomain()
    ensures '@' in "alice@acme.co.uk" && EmailDomain("alice@acme.co.uk") == "acme.co.uk"
  {
    var e := "alice@acme.co.uk";
    assert e[..5] == "alice" && e[6..] == "acme.co.uk";
    DomainOf(e, 5, "acme.co.uk");
  }

  lemma AcmeLabel()
    ensures BeforeFirst("acme.co.uk", '.') == "acme"
  {
    var d := "acme.co.uk";
    assert d[..4] == "acme";
    FirstLabelOf(d, 4, "acme");
  }

  lemma NotAProvider()
    ensures "acme.co.uk" !in CommonProviders
  {
  }

  lemma CapitalizeAcme()
    ensures Capitalize("acme") == "Acme"
  {
    var c := Capitalize("acme");
    assert c[0] == 'A' && c[1] == 'c' && c[2] == 'm' && c[3] == 'e';
  }

  /** A public provider gives no company. */
  lemma PublicProviderExample()
    ensures ExtractCompany("bob@gmail.com") == ""
  {
    DomainOf("bob@gmail.com", 3, "gmail.com");
    assert "gmail.com" in CommonProviders;
  }

  /** The provider list is compared case-sensitively, so an upper-case
      provider domain is taken for a company name. */
  lemma ProviderCheckIsCaseSensitive()
    ensures ExtractCompany("bob@GMAIL.com") == "Gmail"
  {
    ShoutedDomain();
    ShoutedLabel();
    ShoutedNotAProvider();
    CapitalizeShouted();
  }

  lemma ShoutedDomain()
    ensures '@' in "bob@GMAIL.com" && EmailDomain("bob@GMAIL.com") == "GMAIL.com"
  {
    var e := "bob@GMAIL.com";
    assert e[..3] == "bob" && e[4..] == "GMAIL.com";
    DomainOf(e, 3, "GMAIL.com");
  }

  lemma ShoutedLabel()
    ensures BeforeFirst("GMAIL.com", '.') == "GMAIL"
  {
    var d := "GMAIL.com";
    assert d[..5] == "GMAIL";
    FirstLabelOf(d, 5, "GMAIL");
  }

  lemma ShoutedNotAProvider()
    ensures "GMAIL.com" !in CommonProviders
  {
  }

  lemma CapitalizeShouted()
    ensures Capitalize("GMAIL") == "Gmail"
  {
    var c := Capitalize("GMAIL");
    assert c[0] == 'G' && c[1] == 'm' && c[2] == 'a' && c[3] == 'i' && c[4] == 'l';
  }

  /** Reading off the domain of a concrete address with one `@` at `at`. */
  lemma DomainOf(email: string, at: nat, domain: string)
    requires at < |email| && email[at] == '@' && '@' !in email[..at]
    requires email[at + 1..] == domain && '@' !in domain
    ensures '@' in email && EmailDomain(email) == domain
  {
    IndexOfUnique(email, '@', at);
  }

  /** Reading off the first label of a concrete domain with its first dot at `dot`. */
  lemma FirstLabelOf(domain: string, dot: nat, first: string)
    requires dot < |domain| && domain[dot] == '.' && domain[..dot] == first && '.' !in first
    ensures BeforeFirst(domain, '.') == first
  {
    IndexOfUnique(domain, '.', dot);
  }
}
