/** Addresses reduced to the mailbox they deliver to, and a domain with the domains above it. */
module CanonicalEmail {
  import opened Text

  const GMAIL := "gmail.com"
  const GOOGLEMAIL := "googlemail.com"

  /******* Addresses *******/

  /** The position of the last occurrence of c, or -1. */
  function LastIndexOf(s: string, c: char): (i: int)
    ensures -1 <= i < |s|
    ensures i >= 0 ==> s[i] == c
    ensures forall j :: i < j < |s| ==> s[j] != c
  {
    if s == [] then -1
    else if s[|s| - 1] == c then |s| - 1
    else LastIndexOf(s[..|s| - 1], c)
  }

  function WithoutDots(s: string): string {
    if s == [] then [] else (if s[0] == '.' then [] else [s[0]]) + WithoutDots(s[1..])
  }

  function Folded(email: string): string {
    Lower(Trim(email))
  }

  predicate IsGmail(domain: string) {
    domain == GMAIL || domain == GOOGLEMAIL
  }

  function FoldDomain(domain: string): string {
    if IsGmail(domain) then GMAIL else domain
  }

  /** The local part up to its first plus, for Gmail without its dots. */
  function FoldLocal(local: string, domain: string): string {
    if IsGmail(domain) then WithoutDots(Before(local, '+')) else Before(local, '+')
  }

  /** Whether there is something on both sides of the last @. */
  predicate HasParts(folded: string) {
    0 < LastIndexOf(folded, '@') < |folded| - 1
  }

  function LocalPart(folded: string): string
    requires HasParts(folded)
  {
    folded[..LastIndexOf(folded, '@')]
  }

  function DomainPart(folded: string): string
    requires HasParts(folded)
  {
    folded[LastIndexOf(folded, '@') + 1..]
  }

  /** The mailbox an address delivers to. */
  function Local(folded: string): string
    requires HasParts(folded)
  {
    FoldLocal(LocalPart(folded), DomainPart(folded))
  }

  function Domain(folded: string): string
    requires HasParts(folded)
  {
    FoldDomain(DomainPart(folded))
  }

  function Reduced(folded: string): string {
    if HasParts(folded) then Local(folded) + "@" + Domain(folded) else folded
  }

  function Canonical(email: string): string {
    Reduced(Folded(email))
  }

  method CanonicalEmail(email: string) returns (r: string)
    ensures r == Canonical(email)
  {
    var trimmed := Lower(Trim(email));
    var at := LastIndexOf(trimmed, '@');
    if at <= 0 || at == |trimmed| - 1 {
      return trimmed;
    }
    var local, domain := trimmed[..at], trimmed[at + 1..];
    local := Before(local, '+');
    if domain == GMAIL || domain == GOOGLEMAIL {
      domain := GMAIL;
      local := WithoutDots(local);
    }
    r := local + "@" + domain;
  }

  lemma {:induction false} LastIndexIs(before: string, c: char, after: string)
    requires c !in after
    ensures LastIndexOf(before + [c] + after, c) == |before|
  {
    var s := before + [c] + after;
    assert s[|before|] == c;
    forall j | |before| < j < |s|
      ensures s[j] != c
    {
      assert s[j] == after[j - |before| - 1];
    }
  }

  /** What folding gives: no white space at either end and no capitals; such a text folds to itself. */
  ghost predicate IsFolded(s: string) {
    Trimmed(s) && Lowered(s)
  }

  lemma FoldedIs(email: string)
    ensures IsFolded(Folded(email)) && |Folded(email)| == |Trim(email)|
    ensures Folded(email) == email <==> IsFolded(email)
  {
    TrimProperties(email);
    LowerIs(Trim(email));
    var t, s := Trim(email), Folded(email);
    if s != "" {
      assert s[0] == LowerChar(t[0]) && s[|s| - 1] == LowerChar(t[|t| - 1]);
    }
    if IsFolded(email) {
      assert t == email;
    }
  }

  lemma {:induction false} WithoutDotsIs(s: string)
    ensures forall c :: c in WithoutDots(s) <==> c in s && c != '.'
    ensures '.' !in s ==> WithoutDots(s) == s
    decreases s
  {
    if s != [] {
      WithoutDotsIs(s[1..]);
      assert s == [s[0]] + s[1..];
    }
  }

  ghost predicate Lowered(s: string) {
    forall i :: 0 <= i < |s| ==> LowerChar(s[i]) == s[i]
  }

  lemma LowerIs(s: string)
    ensures Lower(s) == s <==> Lowered(s)
  {
    if Lower(s) == s {
      forall i | 0 <= i < |s|
        ensures LowerChar(s[i]) == s[i]
      {
        assert Lower(s)[i] == LowerChar(s[i]);
      }
    }
  }

  lemma GmailFacts()
    ensures |GMAIL| == 9 && |GOOGLEMAIL| == 14 && Lowered(GMAIL) && '@' !in GMAIL && !IsSpace(GMAIL[8])
  {
  }

  /** Folding the two parts again changes neither. */
  lemma FoldTwice(local: string, domain: string)
    ensures FoldDomain(FoldDomain(domain)) == FoldDomain(domain)
    ensures FoldLocal(FoldLocal(local, domain), FoldDomain(domain)) == FoldLocal(local, domain)
  {
    GmailFacts();
    BeforeIs(local, '+');
    var l := Before(local, '+');
    WithoutDotsIs(l);
    WithoutDotsIs(WithoutDots(l));
    BeforeNone(FoldLocal(local, domain), '+');
  }

  /** Every character of the folded local part comes from the local part. */
  lemma FoldLocalIs(local: string, domain: string)
    ensures Lowered(local) ==> Lowered(FoldLocal(local, domain))
    ensures |FoldLocal(local, domain)| <= |local|
    ensures forall c :: c in FoldLocal(local, domain) ==> c in local
  {
    var l := FoldLocal(local, domain);
    BeforeIs(local, '+');
    WithoutDotsIs(Before(local, '+'));
    WithoutDotsIsNoLonger(Before(local, '+'));
    forall c | c in l
      ensures c in local
    {
      assert c in Before(local, '+');
    }
    if Lowered(local) {
      forall i | 0 <= i < |l|
        ensures LowerChar(l[i]) == l[i]
      {
        assert l[i] in l && l[i] in local;
      }
    }
  }

  lemma PartsJoin(local: string, domain: string)
    requires local != "" && domain != "" && '@' !in domain
    ensures var s := local + "@" + domain;
            HasParts(s) && LocalPart(s) == local && DomainPart(s) == domain
  {
    var s := local + "@" + domain;
    LastIndexIs(local, '@', domain);
    assert s == local + ['@'] + domain;
    assert s[..|local|] == local && s[|local| + 1..] == domain;
  }

  /** The parts of a folded address, and of its reduction. */
  lemma PartsAre(folded: string)
    requires IsFolded(folded) && HasParts(folded)
    ensures var d := Domain(folded);
            d != "" && '@' !in d && Lowered(d) && !IsSpace(d[|d| - 1])
    ensures Lowered(Local(folded))
  {
    GmailFacts();
    var local, domain := LocalPart(folded), DomainPart(folded);
    FoldLocalIs(local, domain);
    assert domain[|domain| - 1] == folded[|folded| - 1];
  }

  lemma ReducedWithoutLocal(domain: string)
    requires domain != "" && '@' !in domain && Lowered(domain) && !IsSpace(domain[|domain| - 1])
    ensures Canonical("@" + domain) == "@" + domain
  {
    var r := "@" + domain;
    assert r[|r| - 1] == domain[|domain| - 1];
    FoldedIs(r);
    LastIndexIs("", '@', domain);
    assert r == "" + ['@'] + domain;
  }

  /** White space comes to the front when the dots of a Gmail local part are dropped. */
  predicate SpaceSurfaces(folded: string) {
    HasParts(folded) && IsGmail(DomainPart(folded)) && Local(folded) != "" && IsSpace(Local(folded)[0])
  }

  /** Without Gmail the local part keeps its first character, which is no white space. */
  lemma OnlyGmailSurfaces(folded: string)
    requires IsFolded(folded) && HasParts(folded) && Local(folded) != ""
    ensures IsSpace(Local(folded)[0]) <==> SpaceSurfaces(folded)
  {
    BeforeIs(LocalPart(folded), '+');
  }

  lemma ReducedFolds(local: string, domain: string)
    requires local != "" && Lowered(local) && Lowered(domain) && domain != "" && !IsSpace(domain[|domain| - 1])
    ensures IsFolded(local + "@" + domain) <==> !IsSpace(local[0])
  {
    var r := local + "@" + domain;
    assert r[0] == local[0] && r[|r| - 1] == domain[|domain| - 1];
  }

  /** Reducing twice is reducing once, just when dropping dots brings no white space to the front. */
  lemma CanonicalTwice(email: string)
    ensures Canonical(Canonical(email)) == Canonical(email) <==> !SpaceSurfaces(Folded(email))
  {
    var s := Folded(email);
    FoldedIs(email);
    if !HasParts(s) {
      FoldedIs(s);
    } else {
      var local, domain := Local(s), Domain(s);
      var r := local + "@" + domain;
      PartsAre(s);
      FoldedIs(r);
      if local == "" {
        assert r == "@" + domain;
        ReducedWithoutLocal(domain);
      } else {
        OnlyGmailSurfaces(s);
        ReducedFolds(local, domain);
        if !IsSpace(local[0]) {
          PartsJoin(local, domain);
          FoldTwice(LocalPart(s), DomainPart(s));
        } else {
          TrimShorter(r);
          ReducedIsNoLonger(Folded(r));
        }
      }
    }
  }

  lemma {:induction false} WithoutDotsIsNoLonger(s: string)
    ensures |WithoutDots(s)| <= |s|
    decreases s
  {
    if s != [] {
      WithoutDotsIsNoLonger(s[1..]);
    }
  }

  lemma ReducedIsNoLonger(folded: string)
    ensures |Reduced(folded)| <= |folded|
  {
    GmailFacts();
    if HasParts(folded) {
      FoldLocalIs(LocalPart(folded), DomainPart(folded));
    }
  }

  lemma TrimShorter(x: string)
    requires !Trimmed(x)
    ensures |Trim(x)| < |x|
  {
    TrimProperties(x);
    TrimStartIsSuffix(x);
    TrimEndIsPrefix(TrimStart(x));
    assert |Trim(x)| == |x| ==> TrimStart(x) == x && Trim(x) == x;
  }

  ghost predicate NoSpace(s: string) {
    forall k :: 0 <= k < |s| ==> !IsSpace(s[k])
  }

  /** Addresses without white space inside always reduce to a form that stays as it is. */
  lemma CanonicalTwiceWithoutSpace(email: string)
    requires NoSpace(Trim(email))
    ensures Canonical(Canonical(email)) == Canonical(email)
  {
    CanonicalTwice(email);
    var s := Folded(email);
    if HasParts(s) && Local(s) != "" {
      FoldLocalIs(LocalPart(s), DomainPart(s));
      assert Local(s)[0] in Local(s) && Local(s)[0] in LocalPart(s);
      var j :| 0 <= j < |LocalPart(s)| && LocalPart(s)[j] == Local(s)[0];
      assert s[j] == LowerChar(Trim(email)[j]);
    }
  }

  lemma DotSpace()
    ensures FoldLocal(". x", GMAIL) == " x"
  {
    BeforeNone(". x", '+');
    assert ". x"[1..] == " x";
    WithoutDotsIs(" x");
  }

  lemma ExampleJoins()
    ensures ". x" + "@" + GMAIL == ". x@gmail.com" && " x" + "@" + GMAIL == " x@gmail.com"
  {
  }

  lemma SpaceExample()
    ensures Canonical(". x@gmail.com") == " x@gmail.com" && SpaceSurfaces(Folded(". x@gmail.com"))
  {
    ExampleJoins();
    SpaceExampleOf(". x", " x");
  }

  lemma SpaceExampleOf(local: string, reduced: string)
    requires local == ". x" && reduced == " x"
    ensures Canonical(local + "@" + GMAIL) == reduced + "@" + GMAIL && SpaceSurfaces(Folded(local + "@" + GMAIL))
  {
    GmailFacts();
    PartsJoin(local, GMAIL);
    ReducedFolds(local, GMAIL);
    FoldedIs(local + "@" + GMAIL);
    DotSpace();
  }

  /******* Mailboxes *******/

  /** A local part read from the left, up to its first plus; for a dotless mailbox without its dots. */
  function Mailbox(local: string, dotless: bool): string {
    if local == "" || local[0] == '+' then ""
    else if dotless && local[0] == '.' then Mailbox(local[1..], dotless)
    else [local[0]] + Mailbox(local[1..], dotless)
  }

  lemma {:induction false} FoldLocalIsMailbox(local: string, domain: string)
    ensures FoldLocal(local, domain) == Mailbox(local, domain == "gmail.com" || domain == "googlemail.com")
    decreases local
  {
    if local != "" && local[0] != '+' {
      FoldLocalIsMailbox(local[1..], domain);
      var rest := Before(local[1..], '+');
      assert Before(local, '+') == [local[0]] + rest && ([local[0]] + rest)[1..] == rest;
    }
  }

  lemma {:induction false} TagEndsMailbox(local: string, tag: string, dotless: bool)
    requires '+' !in local
    ensures Mailbox(local + ("+" + tag), dotless) == Mailbox(local, dotless)
    decreases local
  {
    var all := local + ("+" + tag);
    if local != "" {
      assert all[0] == local[0] && all[1..] == local[1..] + ("+" + tag);
      TagEndsMailbox(local[1..], tag, dotless);
    }
  }

  lemma {:induction false} WholeMailbox(local: string)
    requires '+' !in local
    ensures Mailbox(local, false) == local
    decreases local
  {
    if local != "" {
      WholeMailbox(local[1..]);
    }
  }

  /** What is left of a text when its dots are left out, from the right. */
  function DotsLeftOut(s: string): string {
    if s == "" then ""
    else if s[|s| - 1] == '.' then DotsLeftOut(s[..|s| - 1])
    else DotsLeftOut(s[..|s| - 1]) + [s[|s| - 1]]
  }

  lemma {:induction false} DotsLeftOutFirst(s: string)
    requires s != ""
    ensures DotsLeftOut(s) == (if s[0] == '.' then "" else [s[0]]) + DotsLeftOut(s[1..])
    decreases s
  {
    var front := s[..|s| - 1];
    if front != "" {
      DotsLeftOutFirst(front);
      assert s[1..][..|s| - 2] == front[1..];
    } else {
      assert s[1..] == "";
    }
  }

  lemma {:induction false} DotlessMailbox(local: string)
    requires '+' !in local
    ensures Mailbox(local, true) == DotsLeftOut(local)
    decreases local
  {
    if local != "" {
      DotlessMailbox(local[1..]);
      DotsLeftOutFirst(local);
    }
  }

  /** A text with an @, something before it and something without another one after it. */
  predicate ReadsAs(s: string, local: string, domain: string) {
    s == local + "@" + domain && local != "" && domain != "" && '@' !in domain
  }

  /** Any case, any white space around it: what an address reduces to when it reads local@domain. */
  lemma ReducesTo(email: string, local: string, domain: string)
    requires ReadsAs(Folded(email), local, domain)
    ensures var gmail := domain == "gmail.com" || domain == "googlemail.com";
            Canonical(email) == Mailbox(local, gmail) + "@" + (if gmail then "gmail.com" else domain)
  {
    PartsJoin(local, domain);
    FoldLocalIsMailbox(local, domain);
  }

  /** Nothing in capitals and no white space. */
  predicate Tidy(s: string) {
    forall i :: 0 <= i < |s| ==> LowerChar(s[i]) == s[i] && !IsSpace(s[i])
  }

  lemma FoldsTidily(first: string, middle: string, last: string)
    requires first != "" && last != "" && Tidy(first) && Tidy(last)
    ensures Folded(first + middle + last) == first + Lower(middle) + last
  {
    var all := first + middle + last;
    assert all[0] == first[0] && all[|all| - 1] == last[|last| - 1];
    TrimProperties(all);
    assert Trim(all) == all;
    var folded := first + Lower(middle) + last;
    forall i | 0 <= i < |all|
      ensures Lower(all)[i] == folded[i]
    {
    }
    assert Lower(all) == folded;
  }

  lemma LowerTag(tag: string)
    ensures Lower("+" + tag + "@") == "+" + Lower(tag) + "@" && Lower("@") == "@"
  {
  }

  lemma TagFolds(local: string, tag: string, domain: string)
    requires local != "" && domain != "" && Tidy(local) && Tidy(domain) && '@' !in domain
    ensures ReadsAs(Folded(local + "+" + tag + "@" + domain), local + ("+" + Lower(tag)), domain)
    ensures ReadsAs(Folded(local + "@" + domain), local, domain)
  {
    assert local + "+" + tag + "@" + domain == local + ("+" + tag + "@") + domain;
    FoldsTidily(local, "+" + tag + "@", domain);
    LowerTag(tag);
    assert local + ("+" + Lower(tag) + "@") + domain == local + ("+" + Lower(tag)) + "@" + domain;
    FoldsTidily(local, "@", domain);
  }

  lemma TagReduces(local: string, tag: string, domain: string)
    requires local != "" && domain != "" && Tidy(local) && Tidy(domain) && '+' !in local && '@' !in domain
    ensures var gmail := domain == "gmail.com" || domain == "googlemail.com";
            Canonical(local + "+" + tag + "@" + domain) ==
            Mailbox(local, gmail) + "@" + (if gmail then "gmail.com" else domain)
  {
    TagFolds(local, tag, domain);
    ReducesTo(local + "+" + tag + "@" + domain, local + ("+" + Lower(tag)), domain);
    TagEndsMailbox(local, Lower(tag), domain == "gmail.com" || domain == "googlemail.com");
  }

  lemma PlainReduces(local: string, domain: string)
    requires local != "" && domain != "" && Tidy(local) && Tidy(domain) && '+' !in local && '@' !in domain
    ensures var gmail := domain == "gmail.com" || domain == "googlemail.com";
            Canonical(local + "@" + domain) == Mailbox(local, gmail) + "@" + (if gmail then "gmail.com" else domain)
  {
    TagFolds(local, "", domain);
    ReducesTo(local + "@" + domain, local, domain);
  }

  /** A tag never matters, and without one only Gmail's dots do. */
  lemma TagsAreDropped(local: string, tag: string, domain: string)
    requires local != "" && domain != "" && Tidy(local) && Tidy(domain) && '+' !in local && '@' !in domain
    ensures Canonical(local + "+" + tag + "@" + domain) == Canonical(local + "@" + domain)
    ensures Canonical(local + "@" + domain) ==
            if domain == "gmail.com" || domain == "googlemail.com" then DotsLeftOut(local) + "@" + "gmail.com"
            else local + "@" + domain
  {
    TagReduces(local, tag, domain);
    PlainReduces(local, domain);
    WholeMailbox(local);
    DotlessMailbox(local);
  }

  /**
   Two addresses reduce to the same form just when they name the same mailbox: the domains agree, with
   googlemail.com read as gmail.com, and the local parts do up to their first plus, at Gmail without dots.
   */
  lemma SameMailbox(a: string, b: string, localA: string, domainA: string, localB: string, domainB: string)
    requires ReadsAs(Folded(a), localA, domainA) && ReadsAs(Folded(b), localB, domainB)
    ensures var gmailA := domainA == "gmail.com" || domainA == "googlemail.com";
            var gmailB := domainB == "gmail.com" || domainB == "googlemail.com";
            Canonical(a) == Canonical(b) <==>
              ((gmailA && gmailB) || domainA == domainB) && Mailbox(localA, gmailA) == Mailbox(localB, gmailB)
  {
    var gmailA := domainA == "gmail.com" || domainA == "googlemail.com";
    var gmailB := domainB == "gmail.com" || domainB == "googlemail.com";
    var d, e := if gmailA then "gmail.com" else domainA, if gmailB then "gmail.com" else domainB;
    ReducesTo(a, localA, domainA);
    ReducesTo(b, localB, domainB);
    GmailFacts();
    SplitsOnce(Mailbox(localA, gmailA), d, Mailbox(localB, gmailB), e);
  }

  /** An address without something on both sides of its last @ is only trimmed and put in lower case. */
  lemma SidesAre(email: string)
    ensures HasParts(Folded(email)) <==> exists local, domain :: ReadsAs(Folded(email), local, domain)
    ensures (forall local, domain :: !ReadsAs(Folded(email), local, domain)) ==> Canonical(email) == Lower(Trim(email))
  {
    var s := Folded(email);
    if HasParts(s) {
      assert s == LocalPart(s) + "@" + DomainPart(s);
      assert ReadsAs(s, LocalPart(s), DomainPart(s));
    }
    forall local, domain | ReadsAs(s, local, domain)
      ensures HasParts(s)
    {
      PartsJoin(local, domain);
    }
  }

  lemma SplitsOnce(l1: string, d1: string, l2: string, d2: string)
    requires '@' !in d1 && '@' !in d2
    ensures l1 + "@" + d1 == l2 + "@" + d2 <==> l1 == l2 && d1 == d2
  {
    LastIndexIs(l1, '@', d1);
    LastIndexIs(l2, '@', d2);
    var r1, r2 := l1 + "@" + d1, l2 + "@" + d2;
    assert r1 == l1 + ['@'] + d1 && r2 == l2 + ['@'] + d2;
    assert r1[..|l1|] == l1 && r1[|l1| + 1..] == d1;
    assert r2[..|l2|] == l2 && r2[|l2| + 1..] == d2;
  }

  /******* Domains *******/

  function Split(s: string): (r: seq<string>)
    ensures r != []
  {
    if s == [] then [[]]
    else
      var rest := Split(s[1..]);
      if s[0] == '.' then [[]] + rest else [[s[0]] + rest[0]] + rest[1..]
  }

  function Join(labels: seq<string>): string {
    if |labels| == 0 then "" else if |labels| == 1 then labels[0] else labels[0] + "." + Join(labels[1..])
  }

  function NonEmpty(labels: seq<string>): seq<string> {
    if labels == [] then [] else (if labels[0] == "" then [] else [labels[0]]) + NonEmpty(labels[1..])
  }

  function WithoutFinalDot(s: string): string {
    if s != "" && s[|s| - 1] == '.' then s[..|s| - 1] else s
  }

  function Labels(domain: string): seq<string> {
    NonEmpty(Split(WithoutFinalDot(Lower(Trim(domain)))))
  }

  /** Every suffix of at least two labels, longest first. */
  function Suffixes(labels: seq<string>): (r: seq<string>)
    ensures |r| == if |labels| < 2 then 0 else |labels| - 1
    ensures forall i :: 0 <= i < |r| ==> r[i] == Join(labels[i..])
  {
    seq(if |labels| < 2 then 0 else |labels| - 1,
        i requires 0 <= i < (if |labels| < 2 then 0 else |labels| - 1) => Join(labels[i..]))
  }

  function DomainAndParents(domain: string): seq<string> {
    Suffixes(Labels(domain))
  }

  method ListDomainAndParents(domain: string) returns (candidates: seq<string>)
    ensures candidates == DomainAndParents(domain)
  {
    var labels := Labels(domain);
    candidates := [];
    var i := 0;
    while i < |labels| - 1
      invariant 0 <= i && (i == 0 || i <= |labels| - 1)
      invariant candidates == Suffixes(labels)[..i]
    {
      candidates := candidates + [Join(labels[i..])];
      i := i + 1;
    }
    assert Suffixes(labels)[..i] == Suffixes(labels);
  }

  ghost predicate AreLabels(labels: seq<string>) {
    forall i :: 0 <= i < |labels| ==> labels[i] != "" && '.' !in labels[i]
  }

  lemma {:induction false} SplitLabel(s: string, rest: string)
    requires '.' !in s
    ensures Split(s) == [s]
    ensures Split(s + "." + rest) == [s] + Split(rest)
    decreases s
  {
    var all := s + "." + rest;
    if s == [] {
      assert all[1..] == rest;
    } else {
      assert all[1..] == s[1..] + "." + rest;
      SplitLabel(s[1..], rest);
      assert s == [s[0]] + s[1..];
      assert ([s[1..]] + Split(rest))[1..] == Split(rest);
    }
  }

  /** Splitting undoes joining labels, of which none is empty or holds a dot. */
  lemma {:induction false} SplitJoin(labels: seq<string>)
    requires labels != [] && AreLabels(labels)
    ensures Split(Join(labels)) == labels
    decreases labels
  {
    if |labels| == 1 {
      SplitLabel(labels[0], "");
    } else {
      SplitLabel(labels[0], Join(labels[1..]));
      SplitJoin(labels[1..]);
    }
  }

  lemma {:induction false} NonEmptyIs(labels: seq<string>)
    ensures forall l :: l in NonEmpty(labels) <==> l in labels && l != ""
    ensures (forall i :: 0 <= i < |labels| ==> labels[i] != "") ==> NonEmpty(labels) == labels
    decreases labels
  {
    if labels != [] {
      NonEmptyIs(labels[1..]);
      assert labels == [labels[0]] + labels[1..];
    }
  }

  /** What splitting gives is dotless and made of the string's own characters. */
  lemma {:induction false} SplitParts(s: string)
    ensures forall l, c :: l in Split(s) && c in l ==> c != '.' && c in s
    decreases s
  {
    if s != [] {
      SplitParts(s[1..]);
      var rest := Split(s[1..]);
      assert s == [s[0]] + s[1..];
      forall l, c | l in Split(s) && c in l
        ensures c != '.' && c in s
      {
        if s[0] == '.' {
          assert l in rest;
        } else if l in rest[1..] {
          assert l in rest;
        } else {
          assert l == [s[0]] + rest[0] && rest[0] in rest;
        }
      }
    }
  }

  ghost predicate LowerLabels(labels: seq<string>) {
    forall i :: 0 <= i < |labels| ==> Lowered(labels[i])
  }

  lemma LabelsAre(domain: string)
    ensures AreLabels(Labels(domain)) && LowerLabels(Labels(domain))
  {
    FoldedIs(domain);
    var s := Folded(domain);
    NonEmptyIs(Split(WithoutFinalDot(s)));
    var labels := Labels(domain);
    forall i | 0 <= i < |labels|
      ensures labels[i] != ""
    {
      assert labels[i] in labels;
    }
    forall i, j | 0 <= i < |labels| && 0 <= j < |labels[i]|
      ensures labels[i][j] != '.' && LowerChar(labels[i][j]) == labels[i][j]
    {
      LabelChars(domain, i, j);
    }
  }

  lemma {:induction false} JoinIs(labels: seq<string>)
    requires labels != [] && AreLabels(labels)
    ensures Join(labels) != "" && Join(labels)[|Join(labels)| - 1] != '.'
    ensures LowerLabels(labels) ==> Lowered(Join(labels))
    decreases labels
  {
    if |labels| == 1 {
      assert labels[0][|labels[0]| - 1] in labels[0];
    } else {
      JoinIs(labels[1..]);
      var rest := Join(labels[1..]);
      if LowerLabels(labels) {
        assert Lowered(labels[0]) && LowerLabels(labels[1..]);
      }
    }
  }

  /** A name that is already trimmed, lower case and joined from labels has exactly those labels. */
  lemma LabelsOfJoin(labels: seq<string>)
    requires labels != [] && AreLabels(labels) && LowerLabels(labels) && Trimmed(Join(labels))
    ensures Labels(Join(labels)) == labels
  {
    var s := Join(labels);
    JoinIs(labels);
    TrimProperties(s);
    LowerIs(s);
    SplitJoin(labels);
    NonEmptyIs(labels);
  }

  lemma {:induction false} SplitLength(s: string)
    ensures |Join(NonEmpty(Split(s)))| <= |s|
    decreases s
  {
    JoinNonEmpty(Split(s));
    SplitJoins(s);
  }

  lemma {:induction false} SplitJoins(s: string)
    ensures Join(Split(s)) == s
    decreases s
  {
    if s != [] {
      SplitJoins(s[1..]);
      var rest := Split(s[1..]);
      var all := Split(s);
      if s[0] == '.' {
        assert all[1..] == rest;
        assert s == "" + "." + s[1..];
      } else {
        assert all[1..] == rest[1..] && all[0] == [s[0]] + rest[0];
        assert s == [s[0]] + s[1..];
      }
    }
  }

  lemma {:induction false} JoinNonEmpty(labels: seq<string>)
    ensures |Join(NonEmpty(labels))| <= |Join(labels)|
    decreases labels
  {
    if labels != [] {
      JoinNonEmpty(labels[1..]);
      var rest := NonEmpty(labels[1..]);
      if labels[0] != "" {
        assert NonEmpty(labels)[1..] == rest;
        if labels[1..] == [] {
          assert rest == [];
        }
      } else {
        assert NonEmpty(labels) == rest;
      }
    }
  }

  lemma TrimmedSuffix(domain: string, i: nat)
    requires i < |DomainAndParents(domain)| && Trimmed(DomainAndParents(domain)[i])
    ensures DomainAndParents(DomainAndParents(domain)[i]) == DomainAndParents(domain)[i..]
  {
    var labels, list := Labels(domain), DomainAndParents(domain);
    LabelsAre(domain);
    assert list[i] == Join(labels[i..]);
    LabelsOfJoin(labels[i..]);
    var again := DomainAndParents(list[i]);
    assert |again| == |list[i..]|;
    forall j | 0 <= j < |again|
      ensures again[j] == list[i..][j]
    {
      assert labels[i..][j..] == labels[i + j..];
    }
  }

  /** Applying it to the i-th entry gives the rest of the list from there, just when that entry is trimmed. */
  lemma SuffixClosure(domain: string, i: nat)
    requires i < |DomainAndParents(domain)|
    ensures DomainAndParents(DomainAndParents(domain)[i]) == DomainAndParents(domain)[i..] <==>
              Trimmed(DomainAndParents(domain)[i])
  {
    var list := DomainAndParents(domain);
    if Trimmed(list[i]) {
      TrimmedSuffix(domain, i);
    } else {
      FirstIsNoLonger(list[i]);
      assert list[i..][0] == list[i];
      TrimShorter(list[i]);
    }
  }

  lemma FirstIsNoLonger(x: string)
    ensures DomainAndParents(x) != [] ==> |DomainAndParents(x)[0]| <= |Trim(x)|
  {
    var labels := Labels(x);
    if DomainAndParents(x) != [] {
      assert labels[0..] == labels;
      SplitLength(WithoutFinalDot(Lower(Trim(x))));
    }
  }

  /** So it always does for a domain without white space. */
  lemma SuffixClosureWithoutSpace(domain: string, i: nat)
    requires i < |DomainAndParents(domain)| && forall k :: 0 <= k < |domain| ==> !IsSpace(domain[k])
    ensures DomainAndParents(DomainAndParents(domain)[i]) == DomainAndParents(domain)[i..]
  {
    SuffixClosure(domain, i);
    var labels := Labels(domain);
    LabelsAre(domain);
    LabelsHaveNoSpace(domain);
    JoinHasNoSpace(labels[i..]);
  }

  /** Labels are made of the folded domain's own characters. */
  lemma LabelChars(domain: string, k: nat, j: nat)
    requires k < |Labels(domain)| && j < |Labels(domain)[k]|
    ensures Labels(domain)[k][j] in Folded(domain) && Labels(domain)[k][j] != '.'
  {
    var s := WithoutFinalDot(Folded(domain));
    SplitParts(s);
    NonEmptyIs(Split(s));
    var l := Labels(domain)[k];
    assert l in Labels(domain) && l in Split(s);
    assert l[j] in l && l[j] in s;
  }

  lemma LabelsHaveNoSpace(domain: string)
    requires NoSpace(domain)
    ensures forall k :: 0 <= k < |Labels(domain)| ==> NoSpace(Labels(domain)[k])
  {
    var s := Folded(domain);
    assert Trimmed(domain);
    TrimProperties(domain);
    forall k, j | 0 <= k < |Labels(domain)| && 0 <= j < |Labels(domain)[k]|
      ensures !IsSpace(Labels(domain)[k][j])
    {
      LabelChars(domain, k, j);
      var n :| 0 <= n < |s| && s[n] == Labels(domain)[k][j];
      assert s[n] == LowerChar(domain[n]);
    }
  }

  lemma {:induction false} JoinHasNoSpace(labels: seq<string>)
    requires forall k :: 0 <= k < |labels| ==> NoSpace(labels[k])
    ensures NoSpace(Join(labels))
    decreases labels
  {
    if |labels| > 1 {
      JoinHasNoSpace(labels[1..]);
      assert NoSpace(labels[0]);
    } else if |labels| == 1 {
      assert NoSpace(labels[0]);
    }
  }
}
