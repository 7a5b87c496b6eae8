/** What a card publication must fulfil before its card becomes a revision. */
module CardPublication {
  import opened Wrappers
  import opened JsonValue

  type Card = Json<string>

  type Members = seq<Field<string>>

  datatype Error =
    NotFoundError | ValidationError | ProfileError | ConflictError | IntegrityError | GoneError | QuarantineError

  /** The text of any other value, text operations, and the leak scan and card parser that live elsewhere; host is
      the lower-case host of a URL, if it has one. */
  datatype Checks = Checks(text: Card -> string, strip: string -> string, host: string -> Option<string>,
                           leaks: Card -> bool, parses: Card -> bool)

  /** A runtime binding; active tells it from one that is paused or revoked. */
  datatype Binding = Binding(agent: string, version: int, active: bool, endpoint: string, origin: string)

  /** The active binding of an agent with the greatest version. */
  function ActiveBinding(bindings: seq<Binding>, agent: string): (r: Option<Binding>)
    ensures r.None? ==> forall b :: b in bindings && b.agent == agent ==> !b.active
    ensures r.Some? ==> r.value in bindings && r.value.agent == agent && r.value.active
    ensures r.Some? ==> forall b :: b in bindings && b.agent == agent && b.active ==> b.version <= r.value.version
  {
    if bindings == [] then None
    else
      var b, rest := bindings[0], ActiveBinding(bindings[1..], agent);
      if b.agent == agent && b.active && (rest.None? || b.version >= rest.value.version) then Some(b) else rest
  }

  // ---------------------------------------------------------------- the outer object

  const REQUIRED := ["schema_version", "agent_id", "binding_id", "generation", "expected_revision", "wire_profile",
                     "card_digest", "agent_card"]

  const NAMED := ["name", "version", "url"]

  function Text(c: Checks, v: Card): string { if v.Str? then v.s else c.text(v) }

  function TextAt(c: Checks, fields: Members, key: string): string {
    var v := Lookup(fields, key);
    if v.Some? then Text(c, v.value) else ""
  }

  function Digest(c: Checks, fields: Members): string {
    var v := Lookup(fields, "card_digest");
    if v.None? || Falsy(v.value) then "" else Text(c, v.value)
  }

  predicate IsHex(ch: char) { '0' <= ch <= '9' || 'a' <= ch <= 'f' }

  predicate IsDigest(s: string) {
    |s| == 71 && s[..7] == "sha256:" && forall i :: 7 <= i < |s| ==> IsHex(s[i])
  }

  predicate AllPresent(fields: Members, keys: seq<string>) {
    forall i :: 0 <= i < |keys| ==> Lookup(fields, keys[i]).Some?
  }

  predicate Outer(c: Checks, publication: Card, agent: string) {
    && publication.Obj?
    && var fields := publication.fields;
       && AllPresent(fields, REQUIRED)
       && Lookup(fields, "schema_version") == Some(Str("0.1.2"))
       && c.strip(TextAt(c, fields, "agent_id")) == agent
       && Lookup(fields, "wire_profile") == Some(Str("a2a-1.0"))
       && IsDigest(Digest(c, fields))
       && !c.leaks(publication)
  }

  // ---------------------------------------------------------------- the card

  function CardOf(publication: Card): Option<Card> {
    if publication.Obj? then Lookup(publication.fields, "agent_card") else None
  }

  predicate IsNamed(c: Checks, fields: Members, key: string) {
    var v := Lookup(fields, key);
    v.Some? && v.value.Str? && c.strip(v.value.s) != ""
  }

  predicate Inner(c: Checks, card: Option<Card>) {
    && card.Some? && card.value.Obj?
    && (forall i :: 0 <= i < |NAMED| ==> IsNamed(c, card.value.fields, NAMED[i]))
    && c.parses(card.value)
  }

  // ---------------------------------------------------------------- the binding

  function Trim(host: string): string
    decreases |host|
  {
    if host != "" && host[|host| - 1] == '.' then Trim(host[..|host| - 1]) else host
  }

  predicate EndsWith(s: string, suffix: string) { |suffix| <= |s| && s[|s| - |suffix|..] == suffix }

  /** The same host, or one below it. */
  predicate SameAuthority(host: string, canonical: string) {
    Trim(host) == Trim(canonical) || EndsWith(Trim(host), "." + Trim(canonical))
  }

  predicate Owned(c: Checks, url: string, origin: string) {
    c.host(url).Some? && c.host(origin).Some? && SameAuthority(c.host(url).value, c.host(origin).value)
  }

  function Urls(c: Checks, items: seq<Card>): seq<string> {
    if items == [] then []
    else
      var last := items[|items| - 1];
      Urls(c, items[..|items| - 1]) + if last.Obj? then [TextAt(c, last.fields, "url")] else []
  }

  function Interfaces(fields: Members): seq<Card> {
    match Lookup(fields, "supportedInterfaces")
    case Some(Arr(items)) => items
    case _ => []
  }

  /** The card points at the bound endpoint, and everything it points at lives on the bound origin. */
  predicate Hosted(c: Checks, fields: Members, b: Binding) {
    var urls := Urls(c, Interfaces(fields));
    && c.host(b.origin).Some? && Interfaces(fields) != [] && b.endpoint in urls
    && (forall i :: 0 <= i < |urls| ==> Owned(c, urls[i], b.origin))
    && (TextAt(c, fields, "url") != "" ==> Owned(c, TextAt(c, fields, "url"), b.origin))
  }

  /** Where a card is not hosted, the error depends on whether a URL without a host is met first. */
  function HostedVerdict(c: Checks, fields: Members, b: Binding): (r: Option<Error>)
    ensures r.None? <==> Hosted(c, fields, b)
  {
    var urls, url := Urls(c, Interfaces(fields)), TextAt(c, fields, "url");
    if c.host(b.origin).None? then Some(ProfileError)
    else if Interfaces(fields) == [] || b.endpoint !in urls then Some(ValidationError)
    else if exists i :: 0 <= i < |urls| && c.host(urls[i]).None? then Some(ProfileError)
    else if exists i :: 0 <= i < |urls| && !Owned(c, urls[i], b.origin) then Some(ValidationError)
    else if url == "" || Owned(c, url, b.origin) then None
    else if c.host(url).None? then Some(ProfileError)
    else Some(ValidationError)
  }

  predicate Accepts(c: Checks, publication: Card, agent: string, binding: Option<Binding>) {
    && Outer(c, publication, agent) && Inner(c, CardOf(publication))
    && (binding.Some? ==> Hosted(c, CardOf(publication).value.fields, binding.value))
  }

  function Verdict(c: Checks, publication: Card, agent: string, binding: Option<Binding>): (r: Option<Error>)
    ensures r.None? <==> Accepts(c, publication, agent, binding)
  {
    if !Outer(c, publication, agent) || !Inner(c, CardOf(publication)) then Some(ValidationError)
    else if binding.None? then None
    else HostedVerdict(c, CardOf(publication).value.fields, binding.value)
  }

  // ---------------------------------------------------------------- what is accepted, spelled out

  /** A digest is the word sha256, a colon, and 64 lower-case hexadecimal digits. */
  lemma DigestExactly(s: string)
    ensures IsDigest(s) <==>
            exists hex: string :: && |hex| == 64 && s == "sha256:" + hex
                                  && forall ch :: ch in hex ==> ch in "0123456789abcdef"
  {
    if IsDigest(s) {
      var hex := s[7..];
      assert s == s[..7] + hex;
      forall ch | ch in hex ensures ch in "0123456789abcdef" {
        var i :| 0 <= i < |hex| && hex[i] == ch;
        assert IsHex(s[i + 7]);
        HexInList(ch);
      }
    }
    if hex: string :| |hex| == 64 && s == "sha256:" + hex && forall ch :: ch in hex ==> ch in "0123456789abcdef" {
      forall i | 7 <= i < |s| ensures IsHex(s[i]) {
        assert s[i] == hex[i - 7] && hex[i - 7] in hex;
      }
    }
  }

  lemma HexInList(ch: char)
    requires IsHex(ch)
    ensures ch in "0123456789abcdef"
  {
    var digits := "0123456789abcdef";
    var d := if ch <= '9' then ch as int - 48 else ch as int - 87;
    assert 0 <= d < 16 && digits[d] == ch;
  }

  predicate NoFinalDot(host: string) { host == "" || host[|host| - 1] != '.' }

  /** Trailing dots do not count. */
  lemma {:induction false} TrimIs(host: string)
    ensures NoFinalDot(Trim(host)) && Trim(host) <= host
    ensures forall i :: |Trim(host)| <= i < |host| ==> host[i] == '.'
    ensures NoFinalDot(host) ==> Trim(host) == host
    decreases |host|
  {
    if host != "" && host[|host| - 1] == '.' {
      TrimIs(host[..|host| - 1]);
    }
  }

  /** A host shares the authority of another exactly if, trailing dots apart, it is that host or that host behind
      a name and a dot: a name that merely ends alike does not. */
  lemma SameAuthorityExactly(host: string, canonical: string)
    requires NoFinalDot(host) && NoFinalDot(canonical)
    ensures SameAuthority(host, canonical) <==>
            host == canonical || exists name: string :: host == name + "." + canonical
    ensures SameAuthority(host + ".", canonical) == SameAuthority(host, canonical)
    ensures SameAuthority(host, canonical + ".") == SameAuthority(host, canonical)
  {
    TrimIs(host);
    TrimIs(canonical);
    assert (host + ".")[..|host|] == host && (canonical + ".")[..|canonical|] == canonical;
    var suffix := "." + canonical;
    if EndsWith(host, suffix) {
      assert host == host[..|host| - |suffix|] + "." + canonical;
    }
    if name: string :| host == name + "." + canonical {
      assert host == name + suffix && host[|host| - |suffix|..] == suffix;
    }
  }

  lemma {:induction false} UrlsAre(c: Checks, items: seq<Card>)
    ensures forall url :: url in Urls(c, items) <==>
              exists i :: 0 <= i < |items| && items[i].Obj? && url == TextAt(c, items[i].fields, "url")
  {
    if items != [] {
      var front, last := items[..|items| - 1], items[|items| - 1];
      UrlsAre(c, front);
      assert forall i :: 0 <= i < |front| ==> front[i] == items[i];
      forall url
        ensures url in Urls(c, items) <==>
                exists i :: 0 <= i < |items| && items[i].Obj? && url == TextAt(c, items[i].fields, "url")
      {
        if i :| 0 <= i < |items| && items[i].Obj? && url == TextAt(c, items[i].fields, "url") {
          assert i < |front| ==> front[i].Obj? && url == TextAt(c, front[i].fields, "url");
        }
        if last.Obj? && url == TextAt(c, last.fields, "url") {
          assert items[|items| - 1].Obj?;
        }
      }
    }
  }

  /** The member is there and is this text. */
  predicate Says(fields: Members, key: string, s: string) { Lookup(fields, key) == Some(Str(s)) }

  ghost predicate HasDigest(c: Checks, fields: Members) {
    exists hex: string :: && |hex| == 64 && Digest(c, fields) == "sha256:" + hex
                          && forall ch :: ch in hex ==> ch in "0123456789abcdef"
  }

  predicate HasText(c: Checks, fields: Members, key: string) {
    var v := Lookup(fields, key);
    v.Some? && v.value.Str? && c.strip(v.value.s) != ""
  }

  /** The publication names its version, wire profile and agent, carries a digest and every required member, leaks
      nothing, and holds a card with a name, a version and a URL that parses. */
  ghost predicate IsComplete(c: Checks, publication: Card, agent: string) {
    && publication.Obj? && !c.leaks(publication)
    && var fields := publication.fields;
       && Says(fields, "schema_version", "0.1.2") && Says(fields, "wire_profile", "a2a-1.0")
       && Lookup(fields, "agent_id").Some? && c.strip(TextAt(c, fields, "agent_id")) == agent
       && Lookup(fields, "binding_id").Some? && Lookup(fields, "generation").Some?
       && Lookup(fields, "expected_revision").Some? && Lookup(fields, "card_digest").Some?
       && HasDigest(c, fields)
       && Lookup(fields, "agent_card").Some? && Lookup(fields, "agent_card").value.Obj?
       && c.parses(Lookup(fields, "agent_card").value)
       && var card := Lookup(fields, "agent_card").value.fields;
          HasText(c, card, "name") && HasText(c, card, "version") && HasText(c, card, "url")
  }

  lemma OuterAndInnerExactly(c: Checks, publication: Card, agent: string)
    ensures Outer(c, publication, agent) && Inner(c, CardOf(publication)) <==> IsComplete(c, publication, agent)
  {
    if publication.Obj? {
      var fields := publication.fields;
      DigestExactly(Digest(c, fields));
      PresentExactly(fields);
      if CardOf(publication).Some? && CardOf(publication).value.Obj? {
        NamedExactly(c, CardOf(publication).value.fields);
      }
    }
  }

  lemma PresentExactly(fields: Members)
    ensures AllPresent(fields, REQUIRED) <==>
            && Lookup(fields, "schema_version").Some? && Lookup(fields, "agent_id").Some?
            && Lookup(fields, "binding_id").Some? && Lookup(fields, "generation").Some?
            && Lookup(fields, "expected_revision").Some? && Lookup(fields, "wire_profile").Some?
            && Lookup(fields, "card_digest").Some? && Lookup(fields, "agent_card").Some?
  {
    if AllPresent(fields, REQUIRED) {
      assert Lookup(fields, REQUIRED[0]).Some? && Lookup(fields, REQUIRED[1]).Some?;
      assert Lookup(fields, REQUIRED[2]).Some? && Lookup(fields, REQUIRED[3]).Some?;
      assert Lookup(fields, REQUIRED[4]).Some? && Lookup(fields, REQUIRED[5]).Some?;
      assert Lookup(fields, REQUIRED[6]).Some? && Lookup(fields, REQUIRED[7]).Some?;
    }
  }

  lemma NamedExactly(c: Checks, card: Members)
    ensures (forall i :: 0 <= i < |NAMED| ==> IsNamed(c, card, NAMED[i])) <==>
            HasText(c, card, "name") && HasText(c, card, "version") && HasText(c, card, "url")
  {
    if forall i :: 0 <= i < |NAMED| ==> IsNamed(c, card, NAMED[i]) {
      assert IsNamed(c, card, NAMED[0]) && IsNamed(c, card, NAMED[1]) && IsNamed(c, card, NAMED[2]);
    }
  }

  /** The URL has a host that shares the authority of the origin's. */
  predicate LivesOn(c: Checks, url: string, origin: string) {
    c.host(url).Some? && c.host(origin).Some? && SameAuthority(c.host(url).value, c.host(origin).value)
  }

  /** The card has interfaces, one of them is the bound endpoint, and every interface and the card's own URL live
      on the origin of the runtime. */
  ghost predicate PointsAt(c: Checks, card: Members, b: Binding) {
    && c.host(b.origin).Some?
    && Lookup(card, "supportedInterfaces").Some? && Lookup(card, "supportedInterfaces").value.Arr?
    && var items := Lookup(card, "supportedInterfaces").value.items;
       && (exists i :: 0 <= i < |items| && items[i].Obj? && TextAt(c, items[i].fields, "url") == b.endpoint)
       && (forall i :: 0 <= i < |items| && items[i].Obj? ==> LivesOn(c, TextAt(c, items[i].fields, "url"), b.origin))
       && (TextAt(c, card, "url") != "" ==> LivesOn(c, TextAt(c, card, "url"), b.origin))
  }

  lemma HostedExactly(c: Checks, card: Members, b: Binding)
    ensures Hosted(c, card, b) <==> PointsAt(c, card, b)
  {
    var items := Interfaces(card);
    var urls := Urls(c, items);
    UrlsAre(c, items);
    if Hosted(c, card, b) {
      forall i | 0 <= i < |items| && items[i].Obj? ensures LivesOn(c, TextAt(c, items[i].fields, "url"), b.origin) {
        var url := TextAt(c, items[i].fields, "url");
        assert url in urls;
      }
    }
    if PointsAt(c, card, b) {
      forall i | 0 <= i < |urls| ensures Owned(c, urls[i], b.origin) {
        assert urls[i] in urls;
      }
    }
  }

  /** A publication is accepted exactly if it is complete and, with a bound runtime, its card points at that. */
  lemma AcceptedExactly(c: Checks, publication: Card, agent: string, binding: Option<Binding>)
    ensures Verdict(c, publication, agent, binding).None? <==>
            && IsComplete(c, publication, agent)
            && (binding.Some? ==> PointsAt(c, Lookup(publication.fields, "agent_card").value.fields, binding.value))
  {
    OuterAndInnerExactly(c, publication, agent);
    if binding.Some? && IsComplete(c, publication, agent) {
      HostedExactly(c, Lookup(publication.fields, "agent_card").value.fields, binding.value);
    }
  }

  /** A publication is refused with a profile error exactly if it is complete and the first URL problem is one
      without a host: the origin, an interface URL once the bound endpoint is among them, or the card's own URL
      once every interface lives on the origin. */
  lemma ProfileErrorExactly(c: Checks, publication: Card, agent: string, binding: Option<Binding>)
    ensures Verdict(c, publication, agent, binding) in {None, Some(ProfileError), Some(ValidationError)}
    ensures Verdict(c, publication, agent, binding) == Some(ProfileError) <==>
            && IsComplete(c, publication, agent) && binding.Some?
            && HostIsMissing(c, Lookup(publication.fields, "agent_card").value.fields, binding.value)
  {
    OuterAndInnerExactly(c, publication, agent);
    if binding.Some? && IsComplete(c, publication, agent) {
      HostMissingExactly(c, Lookup(publication.fields, "agent_card").value.fields, binding.value);
    }
  }

  ghost predicate HostIsMissing(c: Checks, card: Members, b: Binding) {
    || c.host(b.origin).None?
    || (&& Lookup(card, "supportedInterfaces").Some? && Lookup(card, "supportedInterfaces").value.Arr?
        && var items, url := Lookup(card, "supportedInterfaces").value.items, TextAt(c, card, "url");
           && (exists i :: 0 <= i < |items| && items[i].Obj? && TextAt(c, items[i].fields, "url") == b.endpoint)
           && ((exists i :: 0 <= i < |items| && items[i].Obj? && c.host(TextAt(c, items[i].fields, "url")).None?)
               || (&& url != "" && c.host(url).None?
                   && forall i :: 0 <= i < |items| && items[i].Obj? ==>
                        LivesOn(c, TextAt(c, items[i].fields, "url"), b.origin))))
  }

  lemma HostMissingExactly(c: Checks, card: Members, b: Binding)
    ensures HostedVerdict(c, card, b) == Some(ProfileError) <==> HostIsMissing(c, card, b)
  {
    var items := Interfaces(card);
    var urls := Urls(c, items);
    UrlsAre(c, items);
    assert forall i :: 0 <= i < |urls| ==> urls[i] in urls;
    assert forall i :: 0 <= i < |items| && items[i].Obj? ==> TextAt(c, items[i].fields, "url") in urls;
  }

  // ---------------------------------------------------------------- the checks in their order

  method Missing(fields: Members, keys: seq<string>) returns (missing: seq<string>)
    ensures missing == [] <==> AllPresent(fields, keys)
    ensures forall key :: key in missing <==> key in keys && Lookup(fields, key).None?
  {
    missing := [];
    for i := 0 to |keys|
      invariant forall key :: key in missing <==> key in keys[..i] && Lookup(fields, key).None?
    {
      if Lookup(fields, keys[i]).None? {
        missing := missing + [keys[i]];
      }
    }
    assert missing != [] ==> missing[0] in missing;
  }

  method CheckDigest(digest: string) returns (ok: bool)
    ensures ok == IsDigest(digest)
  {
    if |digest| < 7 || digest[..7] != "sha256:" || |digest| != 71 {
      return false;
    }
    for i := 7 to 71
      invariant forall k :: 7 <= k < i ==> IsHex(digest[k])
    {
      if !IsHex(digest[i]) {
        return false;
      }
    }
    return true;
  }

  method CollectUrls(c: Checks, items: seq<Card>) returns (urls: seq<string>)
    ensures urls == Urls(c, items)
  {
    urls := [];
    for i := 0 to |items|
      invariant urls == Urls(c, items[..i])
    {
      assert items[..i + 1][..i] == items[..i];
      if items[i].Obj? {
        urls := urls + [TextAt(c, items[i].fields, "url")];
      }
    }
    assert items[..|items|] == items;
  }

  /** The URLs off the origin; an error if one of them has no host. */
  method Stray(c: Checks, urls: seq<string>, origin: string) returns (stray: Result<seq<string>, Error>)
    requires c.host(origin).Some?
    ensures stray.Err? ==> stray.error == ProfileError
    ensures stray.Err? <==> exists i :: 0 <= i < |urls| && c.host(urls[i]).None?
    ensures stray.Ok? ==> forall url :: url in stray.value <==> url in urls && !Owned(c, url, origin)
  {
    var found := [];
    for i := 0 to |urls|
      invariant forall k :: 0 <= k < i ==> c.host(urls[k]).Some?
      invariant forall url :: url in found <==> url in urls[..i] && !Owned(c, url, origin)
    {
      if c.host(urls[i]).None? {
        return Err(ProfileError);
      }
      if !SameAuthority(c.host(urls[i]).value, c.host(origin).value) {
        found := found + [urls[i]];
      }
    }
    stray := Ok(found);
  }

  method CheckHosted(c: Checks, fields: Members, b: Binding) returns (refusal: Option<Error>)
    ensures refusal == HostedVerdict(c, fields, b)
  {
    if c.host(b.origin).None? {
      return Some(ProfileError);
    }
    if Interfaces(fields) == [] {
      return Some(ValidationError);
    }
    var urls := CollectUrls(c, Interfaces(fields));
    if b.endpoint !in urls {
      return Some(ValidationError);
    }
    var stray := Stray(c, urls, b.origin);
    if stray.Err? {
      return Some(stray.error);
    }
    if stray.value != [] {
      assert stray.value[0] in stray.value;
      return Some(ValidationError);
    }
    assert forall i :: 0 <= i < |urls| ==> urls[i] in urls && urls[i] !in stray.value;
    var url := TextAt(c, fields, "url");
    if url != "" {
      if c.host(url).None? {
        return Some(ProfileError);
      }
      if !SameAuthority(c.host(url).value, c.host(b.origin).value) {
        return Some(ValidationError);
      }
    }
    return None;
  }

  /** The card and digest of an acceptable publication. */
  method Validate(c: Checks, publication: Card, agent: string, binding: Option<Binding>)
    returns (result: Result<(Card, string), Error>)
    ensures result == match Verdict(c, publication, agent, binding)
                      case Some(error) => Err(error)
                      case None => Ok((CardOf(publication).value, Digest(c, publication.fields)))
  {
    if !publication.Obj? {
      return Err(ValidationError);
    }
    var fields := publication.fields;
    var missing := Missing(fields, REQUIRED);
    if missing != [] {
      return Err(ValidationError);
    }
    if Lookup(fields, "schema_version") != Some(Str("0.1.2")) {
      return Err(ValidationError);
    }
    if c.strip(TextAt(c, fields, "agent_id")) != agent {
      return Err(ValidationError);
    }
    if Lookup(fields, "wire_profile") != Some(Str("a2a-1.0")) {
      return Err(ValidationError);
    }
    var isDigest := CheckDigest(Digest(c, fields));
    if !isDigest || c.leaks(publication) {
      return Err(ValidationError);
    }
    var card := CardOf(publication);
    if card.None? || !card.value.Obj? {
      return Err(ValidationError);
    }
    for i := 0 to |NAMED|
      invariant forall k :: 0 <= k < i ==> IsNamed(c, card.value.fields, NAMED[k])
    {
      if !IsNamed(c, card.value.fields, NAMED[i]) {
        return Err(ValidationError);
      }
    }
    if !c.parses(card.value) {
      return Err(ValidationError);
    }
    if binding.Some? {
      var refusal := CheckHosted(c, card.value.fields, binding.value);
      if refusal.Some? {
        return Err(refusal.value);
      }
    }
    return Ok((card.value, Digest(c, fields)));
  }
}
