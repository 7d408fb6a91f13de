/** The generated host name of a tenant service. */
module DefaultDomain {
  import opened Wrappers
  import opened Text

  const MAX_LABEL := 63
  const MAX_FQDN := 253
  const DEFAULT_TEMPLATE := "{name}-{shortId}"

  /** `toLowerCase`, as far as it yields label characters: the Kelvin sign and the dotted capital I become ASCII
      letters; all other non-ASCII characters stay outside the label alphabet. */
  function LowerChar(c: char): string {
    if IsUpperLetter(c) then [(c as int + 32) as char]
    else if c == '\U{212a}' then "k"
    else if c == '\U{0130}' then "i\U{0307}"
    else [c]
  }

  function Lower(s: string): string {
    if s == "" then "" else LowerChar(s[0]) + Lower(s[1..])
  }

  predicate IsLabelChar(c: char) {
    IsLowerLetter(c) || IsDigit(c) || c == '-'
  }

  /** `replace(/[^a-z0-9-]+/g, '-')`; `inRun` says that the run's dash has been written. */
  function Dashed(s: string, inRun: bool): string {
    if s == "" then ""
    else if IsLabelChar(s[0]) then [s[0]] + Dashed(s[1..], false)
    else (if inRun then "" else "-") + Dashed(s[1..], true)
  }

  /** `replace(/-+/g, '-')`. */
  function Collapse(s: string): string {
    if s == "" then ""
    else if s[0] == '-' && |s| > 1 && s[1] == '-' then Collapse(s[1..])
    else [s[0]] + Collapse(s[1..])
  }

  /** `replace(/^-|-$/g, '')`. */
  function StripEdges(s: string): string {
    var t := if s != "" && s[0] == '-' then s[1..] else s;
    if t != "" && t[|t| - 1] == '-' then t[..|t| - 1] else t
  }

  function SanitizeDnsLabel(name: string): string {
    var s := StripEdges(Collapse(Dashed(Lower(name), false)));
    if s == "" then "app" else s
  }

  function WithoutDashes(s: string): string {
    if s == "" then ""
    else if s[0] == '-' then WithoutDashes(s[1..])
    else [s[0]] + WithoutDashes(s[1..])
  }

  function ShortId(serviceId: string): string {
    Take(WithoutDashes(serviceId), 8)
  }

  predicate IsHex(c: char) {
    IsDigit(c) || 'a' <= c <= 'f'
  }

  predicate IsShortHex(s: string) {
    |s| == 8 && forall i | 0 <= i < 8 :: IsHex(s[i])
  }

  /** `replace(/-+$/, '')`. */
  function DropTrailingDashes(s: string): string {
    if s != "" && s[|s| - 1] == '-' then DropTrailingDashes(s[..|s| - 1]) else s
  }

  predicate HasIdSuffix(dnsLabel: string) {
    |dnsLabel| >= 9 && dnsLabel[|dnsLabel| - 9] == '-' && IsShortHex(dnsLabel[|dnsLabel| - 8..])
  }

  function ClampLabel(dnsLabel: string): string {
    if |dnsLabel| <= MAX_LABEL then dnsLabel
    else if HasIdSuffix(dnsLabel) then DropTrailingDashes(dnsLabel[..MAX_LABEL - 9]) + dnsLabel[|dnsLabel| - 9..]
    else DropTrailingDashes(dnsLabel[..MAX_LABEL])
  }

  /** `replace` with a text pattern: the first occurrence. */
  function ReplaceFirst(s: string, pattern: string, replacement: string): string
    requires pattern != ""
  {
    if |s| < |pattern| then s
    else if s[..|pattern|] == pattern then replacement + s[|pattern|..]
    else [s[0]] + ReplaceFirst(s[1..], pattern, replacement)
  }

  datatype Service = Service(serviceId: string, serviceName: string)

  function TemplateOf(subdomainTemplate: Option<string>): string {
    if subdomainTemplate.Some? && Trim(subdomainTemplate.value) != "" then Trim(subdomainTemplate.value)
    else DEFAULT_TEMPLATE
  }

  function Rendered(template: string, service: Service): string {
    ReplaceFirst(ReplaceFirst(template, "{name}", SanitizeDnsLabel(service.serviceName)),
                 "{shortId}", ShortId(service.serviceId))
  }

  function LabelOf(subdomainTemplate: Option<string>, service: Service): string {
    ClampLabel(SanitizeDnsLabel(Rendered(TemplateOf(subdomainTemplate), service)))
  }

  function BuildDefaultDomainHost(base: Option<string>, subdomainTemplate: Option<string>, service: Service): Option<string> {
    var cleanBase := if base.Some? then Trim(base.value) else "";
    if cleanBase == "" then None
    else
      var dnsLabel := LabelOf(subdomainTemplate, service);
      if dnsLabel == "" then None
      else
        var host := dnsLabel + "." + cleanBase;
        if |host| > MAX_FQDN then None else Some(host)
  }

  // What a label may be.

  /** Section 2.1 of RFC 1123 and section 2.3.4 of RFC 1035, in lower case. */
  predicate ValidLabel(s: string) {
    && 1 <= |s| <= 63
    && (forall i | 0 <= i < |s| :: IsLabelChar(s[i]))
    && s[0] != '-'
    && s[|s| - 1] != '-'
  }

  /** What sanitising yields: label characters, no dash at an edge and none next to another. */
  predicate Clean(s: string) {
    && s != ""
    && (forall i | 0 <= i < |s| :: IsLabelChar(s[i]))
    && s[0] != '-'
    && s[|s| - 1] != '-'
    && SingleDashes(s)
  }

  predicate SingleDashes(s: string) {
    forall i | 0 < i < |s| :: s[i - 1] != '-' || s[i] != '-'
  }

  predicate LabelChars(s: string) {
    forall i | 0 <= i < |s| :: IsLabelChar(s[i])
  }

  lemma {:induction false} DashedIsLabel(s: string, inRun: bool)
    ensures LabelChars(Dashed(s, inRun))
  {
    if s != "" {
      DashedIsLabel(s[1..], !IsLabelChar(s[0]));
    }
  }

  lemma {:induction false} CollapseIsSingle(s: string)
    requires LabelChars(s)
    ensures LabelChars(Collapse(s)) && SingleDashes(Collapse(s))
    ensures s != "" ==> Collapse(s) != "" && Collapse(s)[0] == s[0]
  {
    if s != "" {
      var rest := s[1..];
      assert LabelChars(rest);
      CollapseIsSingle(rest);
      if !(s[0] == '-' && |s| > 1 && s[1] == '-') {
        var t := Collapse(s);
        assert t == [s[0]] + Collapse(rest);
        forall i | 0 < i < |t| ensures t[i - 1] != '-' || t[i] != '-' {
          assert t[i] == Collapse(rest)[i - 1];
          assert i > 1 ==> t[i - 1] == Collapse(rest)[i - 2];
        }
      }
    }
  }

  lemma StripEdgesIsClean(s: string)
    requires LabelChars(s) && SingleDashes(s)
    ensures StripEdges(s) == "" || Clean(StripEdges(s))
  {
  }

  lemma SanitizedIsClean(name: string)
    ensures Clean(SanitizeDnsLabel(name))
  {
    DashedIsLabel(Lower(name), false);
    CollapseIsSingle(Dashed(Lower(name), false));
    StripEdgesIsClean(Collapse(Dashed(Lower(name), false)));
  }

  lemma {:induction false} CleanIsFixed(s: string)
    requires LabelChars(s) && SingleDashes(s)
    ensures Lower(s) == s && Dashed(s, false) == s && Collapse(s) == s
  {
    if s != "" {
      assert LabelChars(s[1..]) && SingleDashes(s[1..]) by {
        assert forall i | 0 <= i < |s| - 1 :: s[1..][i] == s[i + 1];
      }
      CleanIsFixed(s[1..]);
      assert LowerChar(s[0]) == [s[0]];
      assert s == [s[0]] + s[1..];
    }
  }

  lemma CleanIsSanitized(s: string)
    requires Clean(s)
    ensures SanitizeDnsLabel(s) == s
  {
    CleanIsFixed(s);
  }

  /** Sanitising twice is sanitising once, and its fixed points are exactly the clean labels. */
  lemma SanitizeIsIdempotent(name: string)
    ensures SanitizeDnsLabel(SanitizeDnsLabel(name)) == SanitizeDnsLabel(name)
    ensures SanitizeDnsLabel(name) == name <==> Clean(name)
  {
    SanitizedIsClean(name);
    CleanIsSanitized(SanitizeDnsLabel(name));
    if Clean(name) {
      CleanIsSanitized(name);
    }
  }

  lemma {:induction false} DroppedDashes(s: string)
    requires s != "" && s[0] != '-'
    ensures var t := DropTrailingDashes(s); t != "" && t <= s && t[|t| - 1] != '-'
  {
    if s[|s| - 1] == '-' {
      DroppedDashes(s[..|s| - 1]);
    }
  }

  /** Clamping a clean label gives a valid one and keeps an id suffix. */
  lemma ClampIsValid(dnsLabel: string)
    requires Clean(dnsLabel)
    ensures ValidLabel(ClampLabel(dnsLabel))
    ensures HasIdSuffix(dnsLabel) ==>
      |ClampLabel(dnsLabel)| >= 9 && ClampLabel(dnsLabel)[|ClampLabel(dnsLabel)| - 9..] == dnsLabel[|dnsLabel| - 9..]
  {
    hide IsLabelChar, IsHex, DropTrailingDashes;
    if |dnsLabel| > MAX_LABEL {
      if HasIdSuffix(dnsLabel) {
        DroppedDashes(dnsLabel[..MAX_LABEL - 9]);
        var head, tail := DropTrailingDashes(dnsLabel[..MAX_LABEL - 9]), dnsLabel[|dnsLabel| - 9..];
        assert ClampLabel(dnsLabel) == head + tail;
        HeadAndTail(dnsLabel, head, tail);
        assert (head + tail)[|head + tail| - 9..] == tail;
      } else {
        DroppedDashes(dnsLabel[..MAX_LABEL]);
      }
    }
  }

  /** The start of a label and its id suffix make a label. */
  lemma HeadAndTail(dnsLabel: string, head: string, tail: string)
    requires Clean(dnsLabel) && HasIdSuffix(dnsLabel) && |dnsLabel| > MAX_LABEL
    requires head != "" && head <= dnsLabel && |head| <= MAX_LABEL - 9 && tail == dnsLabel[|dnsLabel| - 9..]
    ensures ValidLabel(head + tail)
  {
  }

  /** Every host built is a valid label, a dot and the base, within the length limit; and a host is built unless
      the base is blank or the name too long. */
  lemma HostIsValid(base: Option<string>, subdomainTemplate: Option<string>, service: Service)
    ensures
      var dnsLabel := LabelOf(subdomainTemplate, service);
      var cleanBase := if base.Some? then Trim(base.value) else "";
      && ValidLabel(dnsLabel)
      && BuildDefaultDomainHost(base, subdomainTemplate, service) ==
           if cleanBase == "" || |dnsLabel| + 1 + |cleanBase| > 253 then None else Some(dnsLabel + "." + cleanBase)
  {
    var rendered := Rendered(TemplateOf(subdomainTemplate), service);
    SanitizedIsClean(rendered);
    ClampIsValid(SanitizeDnsLabel(rendered));
  }

  // Hosts of different services.

  lemma {:induction false} ReplaceAfter(before: string, pattern: string, tail: string, replacement: string)
    requires pattern != "" && Free(before, pattern[0])
    ensures ReplaceFirst(before + pattern + tail, pattern, replacement) == before + replacement + tail
  {
    var s := before + pattern + tail;
    if before == "" {
      assert s[..|pattern|] == pattern && s[|pattern|..] == tail;
    } else {
      assert s[0] == before[0] != pattern[0];
      assert s[1..] == before[1..] + pattern + tail;
      ReplaceAfter(before[1..], pattern, tail, replacement);
      assert before + replacement + tail == [before[0]] + (before[1..] + replacement + tail);
    }
  }

  lemma RenderDefault(name: string, id: string)
    requires Free(name, '{')
    ensures ReplaceFirst(ReplaceFirst(DEFAULT_TEMPLATE, "{name}", name), "{shortId}", id) == name + "-" + id
  {
    hide ReplaceFirst;
    ReplaceAfter("", "{name}", "-{shortId}", name);
    assert Free(name + "-", '{');
    ReplaceAfter(name + "-", "{shortId}", "", id);
    assert DEFAULT_TEMPLATE == "" + "{name}" + "-{shortId}";
    assert "" + name + "-{shortId}" == name + "-" + "{shortId}" + "";
    assert name + "-" + id + "" == name + "-" + id;
  }

  lemma WithIdIsClean(name: string, id: string)
    requires Clean(name) && IsShortHex(id)
    ensures
      var full := name + "-" + id;
      && Clean(full) && HasIdSuffix(full)
      && full[|full| - 9..] == "-" + id
  {
  }

  /** With the default template, a service whose short id is eight hexadecimal digits keeps it at the label's end. */
  lemma LabelKeepsId(subdomainTemplate: Option<string>, service: Service)
    requires TemplateOf(subdomainTemplate) == "{name}-{shortId}" && IsShortHex(ShortId(service.serviceId))
    ensures
      var found := LabelOf(subdomainTemplate, service);
      |found| >= 9 && found[|found| - 9..] == "-" + ShortId(service.serviceId)
  {
    hide SanitizeDnsLabel, ShortId, ReplaceFirst, ClampLabel, Clean, HasIdSuffix, TemplateOf, IsShortHex;
    var name, id := SanitizeDnsLabel(service.serviceName), ShortId(service.serviceId);
    SanitizedIsClean(service.serviceName);
    CleanHasNoBrace(name);
    RenderDefault(name, id);
    WithIdIsClean(name, id);
    var full := name + "-" + id;
    CleanIsSanitized(full);
    ClampIsValid(full);
    assert LabelOf(subdomainTemplate, service) == ClampLabel(full);
  }

  lemma CleanHasNoBrace(s: string)
    requires Clean(s)
    ensures Free(s, '{')
  {
  }

  lemma SameBefore(a: string, b: string, tail: string)
    requires a + tail == b + tail
    ensures a == b
  {
    assert |a| == |b|;
    assert a == (a + tail)[..|a|] && b == (b + tail)[..|b|];
  }

  lemma SameHostSameLabel(base: Option<string>, subdomainTemplate: Option<string>, s: Service, t: Service)
    ensures
      var host := BuildDefaultDomainHost(base, subdomainTemplate, s);
      host.Some? && host == BuildDefaultDomainHost(base, subdomainTemplate, t) ==>
        LabelOf(subdomainTemplate, s) == LabelOf(subdomainTemplate, t)
  {
    hide LabelOf, Trim;
    var host := BuildDefaultDomainHost(base, subdomainTemplate, s);
    if host.Some? && host == BuildDefaultDomainHost(base, subdomainTemplate, t) {
      var a, b := LabelOf(subdomainTemplate, s), LabelOf(subdomainTemplate, t);
      var tail := "." + Trim(base.value);
      assert a + "." + Trim(base.value) == a + tail && b + "." + Trim(base.value) == b + tail;
      SameBefore(a, b, tail);
    }
  }

  /** With the default template, services with different short ids get different hosts, even when their names are
      clamped. */
  lemma HostsDiffer(base: Option<string>, subdomainTemplate: Option<string>, s: Service, t: Service)
    requires TemplateOf(subdomainTemplate) == "{name}-{shortId}"
    requires IsShortHex(ShortId(s.serviceId)) && IsShortHex(ShortId(t.serviceId))
    ensures
      var host := BuildDefaultDomainHost(base, subdomainTemplate, s);
      host.Some? && ShortId(s.serviceId) != ShortId(t.serviceId) ==>
        host != BuildDefaultDomainHost(base, subdomainTemplate, t)
  {
    SameHostSameLabel(base, subdomainTemplate, s, t);
    LabelKeepsId(subdomainTemplate, s);
    LabelKeepsId(subdomainTemplate, t);
    hide LabelOf, ShortId, TemplateOf, BuildDefaultDomainHost, IsShortHex;
    if LabelOf(subdomainTemplate, s) == LabelOf(subdomainTemplate, t) {
      SameAfter("-", ShortId(s.serviceId), ShortId(t.serviceId));
    }
  }

  lemma SameAfter(head: string, a: string, b: string)
    requires head + a == head + b
    ensures a == b
  {
    assert a == (head + a)[|head|..] && b == (head + b)[|head|..];
  }
  // What a label is made of.

  predicate IsWordChar(c: char) {
    'a' <= c <= 'z' || '0' <= c <= '9'
  }

  function WordLength(s: string): (n: nat)
    ensures n <= |s|
  {
    if s != "" && IsWordChar(s[0]) then 1 + WordLength(s[1..]) else 0
  }

  /** The stretches of letters and digits. */
  function Words(s: string): seq<string>
    decreases |s|
  {
    if s == "" then []
    else if !IsWordChar(s[0]) then Words(s[1..])
    else [s[..WordLength(s)]] + Words(s[WordLength(s)..])
  }

  function Hyphenated(words: seq<string>): string {
    if words == [] then "" else if |words| == 1 then words[0] else words[0] + "-" + Hyphenated(words[1..])
  }

  /** How a first letter changes the words. */
  lemma FirstWord(s: string)
    requires s != "" && IsWordChar(s[0])
    ensures
      var rest := s[1..];
      if rest != "" && IsWordChar(rest[0]) then
        Words(rest) != [] && Words(s) == [[s[0]] + Words(rest)[0]] + Words(rest)[1..]
      else Words(s) == [[s[0]]] + Words(rest)
  {
    var rest, n := s[1..], WordLength(s);
    if rest != "" && IsWordChar(rest[0]) {
      assert s[..n] == [s[0]] + rest[..n - 1] && s[n..] == rest[n - 1..];
      assert Words(rest) == [rest[..n - 1]] + Words(rest[n - 1..]);
    } else {
      assert n == 1 && s[..1] == [s[0]];
    }
  }

  lemma WordsStep(s: string)
    requires s != "" && IsWordChar(s[0])
    ensures Words(s) != []
    ensures
      var rest := s[1..];
      Hyphenated(Words(s)) == [s[0]] +
        if rest != "" && IsWordChar(rest[0]) then Hyphenated(Words(rest))
        else if Words(rest) == [] then "" else "-" + Hyphenated(Words(rest))
  {
    hide Words;
    FirstWord(s);
    var rest := s[1..];
    if rest != "" && IsWordChar(rest[0]) {
      HyphenatedFirst([s[0]], Words(rest)[0], Words(rest)[1..]);
      assert [Words(rest)[0]] + Words(rest)[1..] == Words(rest);
    } else {
      assert ([[s[0]]] + Words(rest))[1..] == Words(rest);
    }
  }

  lemma HyphenatedFirst(c: string, word: string, more: seq<string>)
    ensures Hyphenated([c + word] + more) == c + Hyphenated([word] + more)
  {
    assert ([c + word] + more)[1..] == more && ([word] + more)[1..] == more;
  }

  /** The words, with a dash behind them if the text goes on. */
  function WithTrail(s: string): string {
    Hyphenated(Words(s)) + if Words(s) != [] && !IsWordChar(s[|s| - 1]) then "-" else ""
  }

  lemma WithTrailStep(s: string)
    requires s != "" && IsWordChar(s[0])
    ensures
      var rest := s[1..];
      WithTrail(s) == [s[0]] +
        if rest == "" then "" else if IsWordChar(rest[0]) then WithTrail(rest) else "-" + WithTrail(rest[1..])
  {
    var rest := s[1..];
    WordsStep(s);
    hide Hyphenated;
    if rest != "" && IsWordChar(rest[0]) {
      WordsStep(rest);
    } else if rest != "" {
      assert Words(rest) == Words(rest[1..]);
      if Words(rest) == [] {
        NoWords(rest);
      }
      NothingHyphenated();
      assert rest[1..] != "" ==> rest[1..][|rest| - 2] == s[|s| - 1];
    } else {
      assert Words("") == [];
      NothingHyphenated();
    }
  }

  lemma NothingHyphenated()
    ensures Hyphenated([]) == ""
  {
  }

  lemma {:induction false} NoWords(s: string)
    requires Words(s) == []
    ensures forall i | 0 <= i < |s| :: !IsWordChar(s[i])
  {
    if s != "" {
      NoWords(s[1..]);
      assert forall i | 0 < i < |s| :: s[i] == s[1..][i - 1];
    }
  }

  lemma LabelCharsAre(c: char)
    ensures IsLabelChar(c) <==> IsWordChar(c) || c == '-'
  {
  }

  /** Dashing and collapsing, behind a dash and behind a letter. */
  lemma {:induction false} CollapsedWords(s: string, inRun: bool)
    ensures Collapse("-" + Dashed(s, inRun)) == "-" + WithTrail(s)
    ensures s != "" && IsWordChar(s[0]) ==> Collapse(Dashed(s, inRun)) == WithTrail(s)
    decreases |s|
  {
    if s == "" {
      assert "-" + Dashed(s, inRun) == "-" && Words("") == [];
      assert Collapse("-") == "-" + Collapse("");
    } else {
      var rest := s[1..];
      LabelCharsAre(s[0]);
      if IsWordChar(s[0]) {
        var after := Dashed(rest, false);
        WithTrailStep(s);
        CollapsedWords(rest, false);
        assert Dashed(s, inRun) == [s[0]] + after;
        CollapseLetter(s[0], after);
        if rest != "" && !IsWordChar(rest[0]) {
          LabelCharsAre(rest[0]);
          CollapsedWords(rest[1..], rest[0] != '-');
          assert after == "-" + Dashed(rest[1..], rest[0] != '-');
        }
        assert Collapse([s[0]] + after) == WithTrail(s) by { hide WithTrail, Dashed, Words; EmptyCollapses(); }
        CollapseDash([s[0]] + after);
      } else {
        CollapsedWords(rest, s[0] != '-');
        var after := Dashed(rest, s[0] != '-');
        assert Dashed(s, inRun) == if s[0] != '-' && inRun then after else "-" + after;
        TrailOfRest(s);
        CollapseDashes(after);
        hide Collapse, WithTrail, Dashed;
      }
    }
  }

  lemma EmptyCollapses()
    ensures Collapse("") == "" && Dashed("", false) == ""
  {
  }

  lemma CollapseLetter(c: char, rest: string)
    requires c != '-'
    ensures Collapse([c] + rest) == [c] + Collapse(rest)
  {
    assert ([c] + rest)[1..] == rest;
  }

  lemma CollapseDash(rest: string)
    requires rest != "" && rest[0] != '-'
    ensures Collapse("-" + rest) == "-" + Collapse(rest)
  {
    assert ("-" + rest)[1..] == rest;
  }

  lemma CollapseDashes(rest: string)
    ensures Collapse("-" + ("-" + rest)) == Collapse("-" + rest)
  {
    assert ("-" + ("-" + rest))[1..] == "-" + rest;
  }

  lemma TrailOfRest(s: string)
    requires s != "" && !IsWordChar(s[0])
    ensures WithTrail(s) == WithTrail(s[1..])
  {
    assert Words(s) == Words(s[1..]);
    assert s[1..] != "" ==> s[1..][|s| - 2] == s[|s| - 1];
  }

  lemma {:induction false} WordEdges(s: string)
    requires Words(s) != []
    ensures
      var h := Hyphenated(Words(s));
      h != "" && IsWordChar(h[0]) && IsWordChar(h[|h| - 1])
    decreases |s|
  {
    if !IsWordChar(s[0]) {
      WordEdges(s[1..]);
    } else {
      WordsStep(s);
      if Words(s[1..]) != [] {
        WordEdges(s[1..]);
      }
      NothingHyphenated();
    }
  }

  /** A label is made of the words of the name in lower case, with single dashes between them, or it is `app`. */
  lemma LabelIsWords(name: string)
    ensures SanitizeDnsLabel(name) ==
      if Words(Lower(name)) == [] then "app" else Hyphenated(Words(Lower(name)))
  {
    var s := Lower(name);
    hide Lower;
    CollapsedWords(s, false);
    var dashed := Collapse(Dashed(s, false));
    var h := Hyphenated(Words(s));
    if Words(s) != [] {
      WordEdges(s);
    } else {
      NothingHyphenated();
    }
    if s == "" {
      EmptyCollapses();
    } else if IsWordChar(s[0]) {
      WordsStep(s);
      StripTrail(s, h);
    } else {
      LabelCharsAre(s[0]);
      CollapsedWords(s[1..], s[0] != '-');
      TrailOfRest(s);
      StripTrail(s, h);
    }
  }

  lemma StripTrail(s: string, h: string)
    requires h == Hyphenated(Words(s)) && (Words(s) == [] <==> h == "")
    requires h != "" ==> IsWordChar(h[0]) && IsWordChar(h[|h| - 1])
    ensures StripEdges(WithTrail(s)) == h && StripEdges("-" + WithTrail(s)) == h
  {
    hide Hyphenated, Words;
    assert ("-" + WithTrail(s))[1..] == WithTrail(s);
  }

  /** Lower case: the capital letters, the Kelvin sign and the dotted capital I; nothing else changes. */
  lemma LowerCase(c: char, i: nat)
    ensures i < 26 ==> LowerChar((65 + i) as char) == [(97 + i) as char]
    ensures LowerChar('\U{212a}') == ['k'] && LowerChar('\U{0130}') == ['i', '\U{0307}']
    ensures c !in "ABCDEFGHIJKLMNOPQRSTUVWXYZ" && c != '\U{212a}' && c != '\U{0130}' ==> LowerChar(c) == [c]
  {
    CharacterClasses(c);
  }

  lemma {:induction false} LowerConcat(s: string, c: char)
    ensures Lower("") == "" && Lower(s + [c]) == Lower(s) + LowerChar(c)
  {
    if s != "" {
      LowerConcat(s[1..], c);
      assert (s + [c])[1..] == s[1..] + [c];
    } else {
      assert s + [c] == [c] && [c][1..] == "";
    }
  }

  /** The short id of a UUID is its first group. */
  lemma ShortIdOfUuid(group: string, rest: string)
    requires |group| == 8 && Free(group, '-')
    ensures ShortId(group + "-" + rest) == group
  {
    WithoutDashesKeeps(group, "-" + rest);
    assert group + "-" + rest == group + ("-" + rest);
  }

  lemma {:induction false} WithoutDashesKeeps(s: string, rest: string)
    requires Free(s, '-')
    ensures WithoutDashes(s + rest) == s + WithoutDashes(rest)
  {
    if s == "" {
      assert s + rest == rest;
    } else {
      WithoutDashesKeeps(s[1..], rest);
      assert (s + rest)[1..] == s[1..] + rest;
      assert [s[0]] + s[1..] == s;
    }
  }

  /** What clamping leaves: a label of at most 63 characters as it is; of a longer one the front, without dashes at its
      end, and, if there is one, the id at the end, so that 63 characters are used up to such dashes. */
  lemma ClampIs(dnsLabel: string)
    ensures |dnsLabel| <= 63 ==> ClampLabel(dnsLabel) == dnsLabel
    ensures |dnsLabel| > 63 ==>
      var tail := if HasIdSuffix(dnsLabel) then dnsLabel[|dnsLabel| - 9..] else "";
      exists head ::
        && ClampLabel(dnsLabel) == head + tail && head <= dnsLabel[..63 - |tail|]
        && (forall i | |head| <= i < 63 - |tail| :: dnsLabel[i] == '-')
        && (head != "" ==> head[|head| - 1] != '-')
  {
    if |dnsLabel| > 63 {
      var tail := if HasIdSuffix(dnsLabel) then dnsLabel[|dnsLabel| - 9..] else "";
      var head := DropTrailingDashes(dnsLabel[..63 - |tail|]);
      DashesDropped(dnsLabel[..63 - |tail|]);
      assert forall i | |head| <= i < 63 - |tail| :: dnsLabel[i] == dnsLabel[..63 - |tail|][i];
      assert head + "" == head;
      assert ClampLabel(dnsLabel) == head + tail;
    }
  }

  lemma {:induction false} DashesDropped(s: string)
    ensures
      var t := DropTrailingDashes(s);
      t <= s && (forall i | |t| <= i < |s| :: s[i] == '-') && (t != "" ==> t[|t| - 1] != '-')
  {
    if s != "" && s[|s| - 1] == '-' {
      DashesDropped(s[..|s| - 1]);
    }
  }

  /** The id at the end of a label: a dash and eight hexadecimal digits. */
  lemma IdSuffixIs(dnsLabel: string)
    ensures HasIdSuffix(dnsLabel) <==>
      exists front, id :: dnsLabel == front + "-" + id && |id| == 8 && forall c | c in id :: c in "0123456789abcdef"
  {
    if HasIdSuffix(dnsLabel) {
      var n := |dnsLabel|;
      assert dnsLabel == dnsLabel[..n - 9] + "-" + dnsLabel[n - 8..];
      assert forall c | c in dnsLabel[n - 8..] :: IsHex(c) && c in "0123456789abcdef" by { HexDigits(); }
    }
    if front, id :| dnsLabel == front + "-" + id && |id| == 8 && forall c | c in id :: c in "0123456789abcdef" {
      HexDigits();
      assert dnsLabel[|dnsLabel| - 8..] == id && dnsLabel[|dnsLabel| - 9] == '-';
    }
  }

  lemma HexDigits()
    ensures forall c :: IsHex(c) <==> c in "0123456789abcdef"
  {
  }

  /** The default template: the name's label, a dash and the short id, as far as 63 characters go. */
  lemma DefaultLabel(subdomainTemplate: Option<string>, service: Service)
    requires subdomainTemplate.Some? ==> Trim(subdomainTemplate.value) in ["", "{name}-{shortId}"]
    requires IsShortHex(ShortId(service.serviceId))
    ensures LabelOf(subdomainTemplate, service)
      == ClampLabel(SanitizeDnsLabel(service.serviceName) + "-" + ShortId(service.serviceId))
  {
    var name, id := SanitizeDnsLabel(service.serviceName), ShortId(service.serviceId);
    hide SanitizeDnsLabel, ShortId, ClampLabel;
    SanitizedIsClean(service.serviceName);
    CleanHasNoBrace(name);
    RenderDefault(name, id);
    WithIdIsClean(name, id);
    CleanIsSanitized(name + "-" + id);
  }
}
