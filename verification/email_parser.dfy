/**
 * Splitting a message body into content and signature, and recognising the
 * sender's company (utils/emailParser.ts).
 */
module EmailParser {
  import opened Wrappers
  import opened Text

  /** One entry of COMPANY_MAPPING: a key (an '@' domain or a lower-case name) and its company id. */
  datatype Mapping = Mapping(key: string, companyId: string)

  /** COMPANY_MAPPING, in the order Object.entries enumerates it (declaration order). */
  const CompanyMapping: seq<Mapping> := [
    Mapping("@jpmorgan.com", "jpmorgan"),
    Mapping("j.p. morgan", "jpmorgan"),
    Mapping("jpmorgan", "jpmorgan"),
    Mapping("jp morgan", "jpmorgan"),
    Mapping("@bloomberg.net", "bloomberg"),
    Mapping("bloomberg", "bloomberg"),
    Mapping("@teams.microsoft.com", "microsoft"),
    Mapping("microsoft", "microsoft"),
    Mapping("@qbe.com", "qbe"),
    Mapping("qbe", "qbe"),
    Mapping("@clubplus.com.au", "club-plus"),
    Mapping("club plus", "club-plus"),
    Mapping("@twusuper.com.au", "twusuper"),
    Mapping("twusuper", "twusuper"),
    Mapping("@futurefund.gov.au", "future-fund"),
    Mapping("future fund", "future-fund"),
    Mapping("@ampcapital.com", "amp-capital"),
    Mapping("amp capital", "amp-capital"),
    Mapping("@sunsuper.com.au", "sunsuper"),
    Mapping("sunsuper", "sunsuper"),
    Mapping("@101collins.com.au", "facilities"),
    Mapping("101 collins", "facilities")
  ]

  /** The separator the body is split at: a line holding only "--". */
  const Separator: string := "\n--\n"

  datatype Signature = Signature(text: string, companyId: Option<string>)

  /** ParsedEmailBody: the content, and the signature when one was found. */
  datatype Parsed = Parsed(content: string, signature: Option<Signature>)

  // ---------------------------------------------------------------------------
  // detectCompanyFromSignature

  predicate IsDomainKey(key: string) {
    |key| > 0 && key[0] == '@'
  }

  /** A domain key that occurs in the sender's address (case as given). */
  predicate DomainMatches(sender: string, m: Mapping) {
    IsDomainKey(m.key) && Includes(sender, m.key)
  }

  /** A name key that occurs in the lower-cased signature. */
  predicate NameMatches(lowerSignature: string, m: Mapping) {
    !IsDomainKey(m.key) && Includes(lowerSignature, m.key)
  }

  /** The index of the first entry `matches` accepts: what a for…of loop that returns on the first hit finds. */
  function FirstWhere(entries: seq<Mapping>, matches: Mapping -> bool): (r: Option<nat>)
    ensures r.Some? ==> r.value < |entries| && matches(entries[r.value])
    ensures r.Some? ==> forall j :: 0 <= j < r.value ==> !matches(entries[j])
    ensures r.None? ==> forall j :: 0 <= j < |entries| ==> !matches(entries[j])
  {
    if entries == [] then None
    else if matches(entries[0]) then Some(0)
    else
      match FirstWhere(entries[1..], matches)
      case Some(k) =>
        assert forall j :: 1 <= j <= k ==> entries[j] == entries[1..][j - 1];
        Some(k + 1)
      case None =>
        assert forall j :: 1 <= j < |entries| ==> entries[j] == entries[1..][j - 1];
        None
  }

  /** The sender address is present and not empty (the empty string is falsy). */
  predicate HasSender(senderEmail: Option<string>) {
    senderEmail.Some? && senderEmail.value != ""
  }

  /**
   * detectCompanyFromSignature: with a sender address, the first domain key it
   * contains decides; failing that, the first name key the lower-cased
   * signature contains decides; otherwise there is no company. Every company
   * found is one of the mapping's ids.
   */
  function DetectCompany(signatureText: string, senderEmail: Option<string>): (r: Option<string>)
    ensures r.Some? ==> exists i :: 0 <= i < |CompanyMapping| && r.value == CompanyMapping[i].companyId
  {
    var lower := ToLower(signatureText);
    var byDomain :=
      if HasSender(senderEmail) then FirstWhere(CompanyMapping, m => DomainMatches(senderEmail.value, m))
      else None;
    if byDomain.Some? then Some(CompanyMapping[byDomain.value].companyId)
    else
      match FirstWhere(CompanyMapping, m => NameMatches(lower, m))
      case Some(i) => Some(CompanyMapping[i].companyId)
      case None => None
  }

  /** The first domain key in the sender's address decides, before any name is looked at. */
  lemma DomainDecides(signatureText: string, sender: string, i: nat)
    requires sender != "" && i < |CompanyMapping|
    requires DomainMatches(sender, CompanyMapping[i])
    requires forall j :: 0 <= j < i ==> !DomainMatches(sender, CompanyMapping[j])
    ensures DetectCompany(signatureText, Some(sender)) == Some(CompanyMapping[i].companyId)
  {
    var f := m => DomainMatches(sender, m);
    FirstWhereFinds(CompanyMapping, f, i);
  }

  /** An entry that `matches` accepts, with none accepted before it, is the one found. */
  lemma FirstWhereFinds(entries: seq<Mapping>, matches: Mapping -> bool, i: nat)
    requires i < |entries| && matches(entries[i])
    requires forall j :: 0 <= j < i ==> !matches(entries[j])
    ensures FirstWhere(entries, matches) == Some(i)
  {
    var r := FirstWhere(entries, matches);
    assert r.Some? && r.value <= i;
  }

  /** No domain key of the mapping occurs in the sender's address, or there is none. */
  predicate NoDomainMatch(senderEmail: Option<string>) {
    !HasSender(senderEmail) ||
    forall j :: 0 <= j < |CompanyMapping| ==> !DomainMatches(senderEmail.value, CompanyMapping[j])
  }

  /** Without a domain match, the first name key in the lower-cased signature decides. */
  lemma NameDecides(signatureText: string, senderEmail: Option<string>, i: nat)
    requires NoDomainMatch(senderEmail) && i < |CompanyMapping|
    requires NameMatches(ToLower(signatureText), CompanyMapping[i])
    requires forall j :: 0 <= j < i ==> !NameMatches(ToLower(signatureText), CompanyMapping[j])
    ensures DetectCompany(signatureText, senderEmail) == Some(CompanyMapping[i].companyId)
  {
    var lower := ToLower(signatureText);
    var f := m => NameMatches(lower, m);
    FirstWhereFinds(CompanyMapping, f, i);
  }

  /** With no domain match and no name key in the lower-cased signature, no company is found. */
  lemma NoCompany(signatureText: string, senderEmail: Option<string>)
    requires NoDomainMatch(senderEmail)
    requires forall j :: 0 <= j < |CompanyMapping| ==> !NameMatches(ToLower(signatureText), CompanyMapping[j])
    ensures DetectCompany(signatureText, senderEmail) == None
  {
    var lower := ToLower(signatureText);
    var r := FirstWhere(CompanyMapping, m => NameMatches(lower, m));
  }

  // ---------------------------------------------------------------------------
  // parseEmailBody

  /**
   * The split of parseEmailBody: at the last separator, the trimmed text
   * before it and the trimmed text after it; nothing when there is no
   * separator or only whitespace after the last one.
   */
  function SplitSignature(body: string): (r: Option<(string, string)>)
    ensures r.Some? ==> r.value.1 != [] && !IsSpace(r.value.1[0]) && !IsSpace(r.value.1[|r.value.1| - 1])
  {
    var at := LastIndexOf(body, Separator);
    if at == -1 then None
    else
      var signatureText := Trim(body[at + |Separator|..]);
      if signatureText == [] then None
      else Some((Trim(body[..at]), signatureText))
  }

  /**
   * parseEmailBody: the content and the signature, with the company detected
   * from the signature; without a signature, the whole body is the content.
   */
  function ParseEmailBody(body: string, senderEmail: Option<string>): (r: Parsed)
    ensures r.signature.None? <==> SplitSignature(body).None?
    ensures r.signature.None? ==> r.content == body
    ensures r.signature.Some? ==>
      && r.content == SplitSignature(body).value.0
      && r.signature.value.text == SplitSignature(body).value.1
      && r.signature.value.companyId == DetectCompany(r.signature.value.text, senderEmail)
  {
    match SplitSignature(body)
    case None => Parsed(body, None)
    case Some((content, signatureText)) =>
      Parsed(content, Some(Signature(signatureText, DetectCompany(signatureText, senderEmail))))
  }

  /** lastIndexOf gives -1 exactly when the separator does not occur. */
  lemma NotFoundIffAbsent(body: string)
    ensures LastIndexOf(body, Separator) == -1 <==> !Includes(body, Separator)
  {
    var at := LastIndexOf(body, Separator);
    if at >= 0 {
      assert MatchAt(body, Separator, at);
    }
  }

  /** A body without the separator is all content and has no signature. */
  lemma NoSeparatorNoSignature(body: string, senderEmail: Option<string>)
    requires !Includes(body, Separator)
    ensures ParseEmailBody(body, senderEmail) == Parsed(body, None)
  {
    NotFoundIffAbsent(body);
  }

  /**
   * Around the last occurrence of the separator: there is a signature exactly
   * when the text after it is not all whitespace, and then the content and
   * the signature are the trimmed texts before and after it.
   */
  lemma SplitAtLast(body: string, at: nat)
    requires MatchAt(body, Separator, at)
    requires forall k :: at < k ==> !MatchAt(body, Separator, k)
    ensures var after := body[at + |Separator|..];
      && (SplitSignature(body).None? <==> forall i :: 0 <= i < |after| ==> IsSpace(after[i]))
      && (SplitSignature(body).Some? ==> SplitSignature(body).value == (Trim(body[..at]), Trim(after)))
  {
    assert LastIndexOf(body, Separator) == at;
  }

  /** `p` occurring in a slice of `s` occurs in `s` at the shifted index. */
  lemma MatchInSlice(s: string, p: string, lo: nat, hi: nat, j: nat)
    requires lo <= hi <= |s| && MatchAt(s[lo..hi], p, j)
    ensures MatchAt(s, p, lo + j)
  {
    var a, b := s[lo..hi][j..j + |p|], s[lo + j..lo + j + |p|];
    assert |a| == |b|;
    forall k | 0 <= k < |a| ensures a[k] == b[k] {
      assert a[k] == s[lo..hi][j + k];
    }
  }

  /** A slice of a suffix is a slice of the whole. */
  lemma SliceOfSuffix(s: string, start: nat, a: nat, b: nat)
    requires start <= |s| && a <= b <= |s| - start
    ensures s[start..][a..b] == s[start + a..start + b]
  {
  }

  /** A slice lying wholly after the last occurrence of `p` does not contain `p`. */
  lemma NoMatchAfterLast(s: string, p: string, at: int, lo: nat, hi: nat)
    requires at < lo <= hi <= |s|
    requires forall k :: at < k ==> !MatchAt(s, p, k)
    ensures !Includes(s[lo..hi], p)
  {
    if Includes(s[lo..hi], p) {
      var j :| 0 <= j <= hi - lo && MatchAt(s[lo..hi], p, j);
      MatchInSlice(s, p, lo, hi, j);
    }
  }

  /** A signature never contains the separator, since the split was at its last occurrence. */
  lemma SignatureHasNoSeparator(body: string)
    ensures SplitSignature(body).Some? ==> !Includes(SplitSignature(body).value.1, Separator)
  {
    var r := SplitSignature(body);
    if r.Some? {
      var at := LastIndexOf(body, Separator);
      TrimmedTailHasNoMatch(body, Separator, at);
    }
  }

  /** The trimmed text after the last occurrence of `p` does not contain `p`. */
  lemma TrimmedTailHasNoMatch(s: string, p: string, at: nat)
    requires 0 < |p| && at + |p| <= |s|
    requires forall k :: at < k ==> !MatchAt(s, p, k)
    ensures !Includes(Trim(s[at + |p|..]), p)
  {
    var start := at + |p|;
    var after := s[start..];
    var text := Trim(after);
    var lead := LeadingSpaces(after);
    assert text == after[lead..lead + |text|];
    SliceOfSuffix(s, start, lead, lead + |text|);
    var lo, hi := start + lead, start + lead + |text|;
    NoMatchAfterLast(s, p, at, lo, hi);
  }

  /** Around the separator, trimming loses only whitespace. */
  lemma TrimAroundKeepsText(before: string, after: string)
    ensures NonSpace(before + Separator + after) == NonSpace(Trim(before)) + "--" + NonSpace(Trim(after))
  {
    NonSpaceAppend(before + Separator, after);
    NonSpaceAppend(before, Separator);
    assert NonSpace(Separator) == "--";
    TrimKeepsText(before);
    TrimKeepsText(after);
  }

  /**
   * Nothing but whitespace and the separator's own line breaks is lost: the
   * non-whitespace characters of the body are those of the content, then
   * "--", then those of the signature.
   */
  lemma SplitKeepsText(body: string)
    ensures SplitSignature(body).Some? ==>
      NonSpace(body) == NonSpace(SplitSignature(body).value.0) + "--" + NonSpace(SplitSignature(body).value.1)
  {
    var r := SplitSignature(body);
    if r.Some? {
      var at := LastIndexOf(body, Separator);
      var before, after := body[..at], body[at + |Separator|..];
      assert body == before + Separator + after;
      TrimAroundKeepsText(before, after);
    }
  }
}
