/**
  Who receives which template of an envelope, and with which recipient id
  (src/docusign-communications/docusign-communication.service.ts).
 */
module RecipientRouting {
  import opened Common
  import opened Contracts

  datatype Template = Template(docusignTemplateId: string, recipientRoles: seq<string>)

  /** Recipient ids and routing orders are decimal strings in the payload; here they are the numbers. */
  datatype SignerEntry = SignerEntry(
    email: string, name: string, recipientId: int, roleName: string, routingOrder: int, templateId: string)

  datatype CarbonCopy = CarbonCopy(email: string, name: string, recipientId: int, routingOrder: int)

  datatype CompositeTemplate = CompositeTemplate(
    serverSequence: nat,
    templateId: string,
    inlineSequence: nat,
    signers: seq<SignerEntry>,
    carbonCopies: seq<CarbonCopy>)

  datatype RoutingError = NoTemplates

  // ---------------------------------------------------------------- specification

  /** `findIndex(e => e === x)`. */
  function IndexOf(s: seq<string>, x: string): (r: int)
    ensures -1 <= r < |s|
    ensures r >= 0 ==> s[r] == x
    ensures r == -1 <==> x !in s
  {
    FindIndex(s, (e: string) => e == x)
  }

  function RecipientId(orders: seq<string>, roleId: string): int {
    IndexOf(orders, roleId) + 1
  }

  /** The people who sign a template with these roles, in role order. */
  function Signing(roles: seq<string>, signers: seq<Signer>): seq<Signer> {
    if roles == [] then []
    else
      var i := FindIndex(signers, HasRoleId(Last(roles)));
      Signing(Init(roles), signers) + if i >= 0 && signers[i].email != "" then [signers[i]] else []
  }

  /** The people who get a copy: those whose role the template does not ask for. */
  function Copied(roles: seq<string>, signers: seq<Signer>): seq<Signer> {
    if signers == [] then []
    else Copied(roles, Init(signers)) + if Last(signers).roleId !in roles then [Last(signers)] else []
  }

  function DisplayName(s: Signer): string {
    if s.fullName != "" then s.fullName else s.role
  }

  function AsSigner(s: Signer, orders: seq<string>, templateId: string): SignerEntry {
    var id := RecipientId(orders, s.roleId);
    SignerEntry(s.email, DisplayName(s), id, s.role, id, templateId)
  }

  function AsCarbonCopy(s: Signer, orders: seq<string>): CarbonCopy {
    var id := RecipientId(orders, s.roleId);
    CarbonCopy(s.email, DisplayName(s), id, id)
  }

  function Payload(template: Template, signers: seq<Signer>, orders: seq<string>): CompositeTemplate {
    var signing, copied := Signing(template.recipientRoles, signers), Copied(template.recipientRoles, signers);
    CompositeTemplate(
      1, template.docusignTemplateId, 2,
      seq(|signing|, i requires 0 <= i < |signing| => AsSigner(signing[i], orders, template.docusignTemplateId)),
      seq(|copied|, i requires 0 <= i < |copied| => AsCarbonCopy(copied[i], orders)))
  }

  /** The first template with the most roles. */
  ghost predicate IsFirstWidest(templates: seq<Template>, w: int) {
    && 0 <= w < |templates|
    && (forall k :: 0 <= k < |templates| ==> |templates[k].recipientRoles| <= |templates[w].recipientRoles|)
    && (forall k :: 0 <= k < w ==> |templates[k].recipientRoles| < |templates[w].recipientRoles|)
  }

  lemma FirstWidestIsUnique(templates: seq<Template>, v: int, w: int)
    requires IsFirstWidest(templates, v) && IsFirstWidest(templates, w)
    ensures v == w
  {
    var widthV, widthW := |templates[v].recipientRoles|, |templates[w].recipientRoles|;
  }

  // ---------------------------------------------------------------- the service

  method GetMaxSignerRoutingOrders(templates: seq<Template>) returns (r: Result<seq<string>, RoutingError>)
    ensures r.Err? <==> templates == []
    ensures r.Ok? ==> exists w :: IsFirstWidest(templates, w) && r.value == templates[w].recipientRoles
  {
    var maxIdx, maxRecipients := 0, 0;
    for idx := 0 to |templates|
      invariant 0 <= maxIdx && (maxIdx == 0 || maxIdx < idx)
      invariant idx > 0 ==> |templates[maxIdx].recipientRoles| == maxRecipients
      invariant idx == 0 ==> maxRecipients == 0
      invariant forall k :: 0 <= k < idx ==> |templates[k].recipientRoles| <= maxRecipients
      invariant forall k :: 0 <= k < maxIdx ==> |templates[k].recipientRoles| < maxRecipients
    {
      if |templates[idx].recipientRoles| > maxRecipients {
        maxRecipients := |templates[idx].recipientRoles|;
        maxIdx := idx;
      }
    }
    if templates == [] {
      return Err(NoTemplates);
    }
    assert IsFirstWidest(templates, maxIdx);
    r := Ok(templates[maxIdx].recipientRoles);
  }

  method GetCompositeTemplatePayloadData(template: Template, signers: seq<Signer>, orders: seq<string>)
    returns (r: CompositeTemplate)
    ensures r == Payload(template, signers, orders)
  {
    var runningCounter := 0;
    runningCounter := runningCounter + 1;
    var serverSequence := runningCounter;
    runningCounter := runningCounter + 1;

    var roles := template.recipientRoles;
    var entries: seq<SignerEntry> := [];
    for n := 0 to |roles|
      invariant |entries| == |Signing(roles[..n], signers)|
      invariant forall k :: 0 <= k < |entries| ==>
        entries[k] == AsSigner(Signing(roles[..n], signers)[k], orders, template.docusignTemplateId)
    {
      assert Init(roles[..n + 1]) == roles[..n];
      var found := FindIndex(signers, HasRoleId(roles[n]));
      var order := IndexOf(orders, roles[n]);
      if found != -1 {
        var s := signers[found];
        if s.email != "" {
          entries := entries + [SignerEntry(s.email, DisplayName(s), order + 1, s.role, order + 1,
                                            template.docusignTemplateId)];
        }
      }
    }
    assert roles[..|roles|] == roles;
    var copied := Copied(roles, signers);
    var carbonCopies := seq(|copied|, i requires 0 <= i < |copied| => AsCarbonCopy(copied[i], orders));
    r := CompositeTemplate(serverSequence, template.docusignTemplateId, runningCounter, entries, carbonCopies);
  }

  /** The template loop of `sendContractToDocusign` and `sendGSPContractToDocusign`. */
  method BuildCompositeTemplates(templates: seq<Template>, signers: seq<Signer>)
    returns (r: Result<seq<CompositeTemplate>, RoutingError>, ghost w: int)
    ensures r.Err? <==> templates == []
    ensures r.Ok? ==> IsFirstWidest(templates, w) && |r.value| == |templates|
    ensures r.Ok? ==> forall i :: 0 <= i < |templates| ==>
      r.value[i] == Payload(templates[i], signers, templates[w].recipientRoles)
  {
    var orders := GetMaxSignerRoutingOrders(templates);
    if orders.Err? {
      return Err(orders.error), -1;
    }
    w :| IsFirstWidest(templates, w) && orders.value == templates[w].recipientRoles;
    var payloads: seq<CompositeTemplate> := [];
    for n := 0 to |templates|
      invariant |payloads| == n
      invariant forall i :: 0 <= i < n ==> payloads[i] == Payload(templates[i], signers, orders.value)
    {
      var payload := GetCompositeTemplatePayloadData(templates[n], signers, orders.value);
      payloads := payloads + [payload];
    }
    r := Ok(payloads);
  }

  // ---------------------------------------------------------------- nobody lost, nobody twice

  ghost predicate Distinct(s: seq<string>) {
    forall i, j :: 0 <= i < j < |s| ==> s[i] != s[j]
  }

  /** The first signer with their role; only that one is found by the role. */
  predicate IsFirstOfRole(signers: seq<Signer>, s: Signer) {
    var i := FindIndex(signers, HasRoleId(s.roleId));
    i >= 0 && signers[i] == s
  }

  lemma {:induction false} SigningCount(roles: seq<string>, signers: seq<Signer>, s: Signer)
    requires Distinct(roles)
    ensures multiset(Signing(roles, signers))[s]
         == if s.roleId in roles && s.email != "" && IsFirstOfRole(signers, s) then 1 else 0
  {
    if roles != [] {
      SigningCount(Init(roles), signers, s);
      assert roles == Init(roles) + [Last(roles)];
      assert Last(roles) !in Init(roles);
    }
  }

  lemma {:induction false} CopiedCount(roles: seq<string>, signers: seq<Signer>, s: Signer)
    ensures multiset(Copied(roles, signers))[s] == if s.roleId !in roles then multiset(signers)[s] else 0
  {
    if signers != [] {
      var last := Last(signers);
      CopiedCount(roles, Init(signers), s);
      assert signers == Init(signers) + [last];
      assert multiset(signers)[s] == multiset(Init(signers))[s] + multiset([last])[s];
      assert Copied(roles, signers) == Copied(roles, Init(signers)) + if last.roleId !in roles then [last] else [];
    }
  }

  /**
    Who signs a template: the first signer of each role it asks for, if their email is known. Who gets a copy:
    everyone whose role it does not ask for.
   */
  lemma SigningAndCopied(roles: seq<string>, signers: seq<Signer>, s: Signer)
    requires Distinct(roles)
    ensures s in Signing(roles, signers) <==> s.roleId in roles && s.email != "" && IsFirstOfRole(signers, s)
    ensures s in Copied(roles, signers) <==> s in signers && s.roleId !in roles
  {
    SigningCount(roles, signers, s);
    CopiedCount(roles, signers, s);
    assert s in Signing(roles, signers) <==> s in multiset(Signing(roles, signers));
    assert s in Copied(roles, signers) <==> s in multiset(Copied(roles, signers));
    assert s in signers <==> s in multiset(signers);
  }

  /** Everyone the template asks for has an email. */
  ghost predicate EmailsKnown(roles: seq<string>, signers: seq<Signer>) {
    forall k :: 0 <= k < |signers| && signers[k].roleId in roles ==> signers[k].email != ""
  }

  /** Nobody shares with another a role the template asks for. */
  ghost predicate RolesUnshared(roles: seq<string>, signers: seq<Signer>) {
    forall i, j :: 0 <= i < j < |signers| && signers[i].roleId in roles ==> signers[i].roleId != signers[j].roleId
  }

  /**
    Signers and copies of a template are together a permutation of the signer list exactly when everyone the
    template asks for has an email and nobody shares such a role with another.
   */
  lemma NobodyLostNobodyTwice(roles: seq<string>, signers: seq<Signer>)
    requires Distinct(roles)
    ensures multiset(Signing(roles, signers)) + multiset(Copied(roles, signers)) == multiset(signers)
       <==> EmailsKnown(roles, signers) && RolesUnshared(roles, signers)
  {
    var reached := multiset(Signing(roles, signers)) + multiset(Copied(roles, signers));
    if EmailsKnown(roles, signers) && RolesUnshared(roles, signers) {
      forall s
        ensures reached[s] == multiset(signers)[s]
      {
        SigningCount(roles, signers, s);
        CopiedCount(roles, signers, s);
        if s.roleId in roles {
          UnsharedIsOnce(roles, signers, s);
        }
      }
      assert reached == multiset(signers);
    } else if reached == multiset(signers) {
      forall s: Signer
        ensures s.roleId in roles ==>
                  multiset(signers)[s] == if s.email != "" && IsFirstOfRole(signers, s) then 1 else 0
      {
        assert reached[s] == multiset(signers)[s];
        SigningCount(roles, signers, s);
        CopiedCount(roles, signers, s);
      }
      OnceIsUnshared(roles, signers);
    }
  }

  lemma UnsharedIsOnce(roles: seq<string>, signers: seq<Signer>, s: Signer)
    requires EmailsKnown(roles, signers) && RolesUnshared(roles, signers) && s.roleId in roles
    ensures multiset(signers)[s] == if s.email != "" && IsFirstOfRole(signers, s) then 1 else 0
  {
    var i := FindIndex(signers, HasRoleId(s.roleId));
    if s in signers {
      var k :| 0 <= k < |signers| && signers[k] == s;
      assert i == k;
      CountAround(signers, k);
    } else {
      assert multiset(signers)[s] == 0;
    }
  }

  lemma OnceIsUnshared(roles: seq<string>, signers: seq<Signer>)
    requires forall s: Signer :: s.roleId in roles ==>
               multiset(signers)[s] == if s.email != "" && IsFirstOfRole(signers, s) then 1 else 0
    ensures EmailsKnown(roles, signers) && RolesUnshared(roles, signers)
  {
    forall k | 0 <= k < |signers| && signers[k].roleId in roles
      ensures signers[k].email != "" && IsFirstOfRole(signers, signers[k])
    {
      assert signers[k] in multiset(signers);
    }
    forall i, j | 0 <= i < j < |signers| && signers[i].roleId in roles
      ensures signers[i].roleId != signers[j].roleId
    {
      if signers[i] == signers[j] {
        TwiceIsTwo(signers, i, j);
      }
    }
  }

  /** How often an element occurs: here, before and after. */
  lemma CountAround(signers: seq<Signer>, k: nat)
    requires k < |signers|
    ensures multiset(signers)[signers[k]]
         == multiset(signers[..k])[signers[k]] + 1 + multiset(signers[k + 1..])[signers[k]]
  {
    assert signers == signers[..k] + [signers[k]] + signers[k + 1..];
  }

  lemma TwiceIsTwo(signers: seq<Signer>, i: nat, j: nat)
    requires i < j < |signers| && signers[i] == signers[j]
    ensures multiset(signers)[signers[i]] >= 2
  {
    CountAround(signers, i);
    assert signers[i + 1..][j - i - 1] == signers[j];
    assert signers[i] in signers[i + 1..];
  }

  /** Of several signers with a role the template asks for, all that differ from the first get nothing at all. */
  lemma SecondSignerOfARoleIsLost(roles: seq<string>, signers: seq<Signer>, k: nat)
    requires Distinct(roles) && k < |signers| && signers[k].roleId in roles
    ensures signers[k] !in Signing(roles, signers) && signers[k] !in Copied(roles, signers)
       <==> signers[k].email == "" || !IsFirstOfRole(signers, signers[k])
  {
    SigningAndCopied(roles, signers, signers[k]);
  }

  // ---------------------------------------------------------------- one recipient id per person

  /** Two roles share a recipient id exactly when they are one role or the widest template has neither. */
  lemma IdsCollideExactly(orders: seq<string>, roleA: string, roleB: string)
    ensures RecipientId(orders, roleA) == RecipientId(orders, roleB)
       <==> roleA == roleB || (roleA !in orders && roleB !in orders)
    ensures 1 <= RecipientId(orders, roleA) <= |orders| <==> roleA in orders
  {
  }

  /**
    If the widest template covers every signer's role, each person has one recipient id between 1 and n in all
    composite templates, as signer in one and as copy in another, and two people share it exactly when they share
    a role.
   */
  lemma OneIdPerPerson(templates: seq<Template>, signers: seq<Signer>, w: int, payloads: seq<CompositeTemplate>)
    requires IsFirstWidest(templates, w) && |payloads| == |templates|
    requires forall i :: 0 <= i < |templates| ==>
      payloads[i] == Payload(templates[i], signers, templates[w].recipientRoles)
    requires forall i :: 0 <= i < |templates| ==> Distinct(templates[i].recipientRoles)
    requires forall s :: s in signers ==> s.roleId in templates[w].recipientRoles
    ensures var orders := templates[w].recipientRoles;
            && (forall s :: s in signers ==> 1 <= RecipientId(orders, s.roleId) <= |orders|)
            && (forall s, t :: s in signers && t in signers ==>
                  (RecipientId(orders, s.roleId) == RecipientId(orders, t.roleId) <==> s.roleId == t.roleId))
    ensures forall i :: 0 <= i < |templates| ==>
      EveryoneHasTheirId(payloads[i], templates[i], signers, templates[w].recipientRoles)
  {
    var orders := templates[w].recipientRoles;
    forall i | 0 <= i < |templates|
      ensures EveryoneHasTheirId(payloads[i], templates[i], signers, orders)
    {
      PayloadEntries(templates[i], signers, orders);
    }
    forall s, t | s in signers && t in signers
      ensures RecipientId(orders, s.roleId) == RecipientId(orders, t.roleId) <==> s.roleId == t.roleId
    {
      IdsCollideExactly(orders, s.roleId, t.roleId);
    }
  }

  /**
    The entries of the payload are the renderings, with the id of their role, of the first signer of each role the
    template asks for, if the email is known, and of everyone whose role it does not ask for.
   */
  ghost predicate EveryoneHasTheirId(p: CompositeTemplate, t: Template, signers: seq<Signer>, orders: seq<string>) {
    && (forall e :: e in p.signers <==>
          exists s :: IsFirstOfRole(signers, s) && s.roleId in t.recipientRoles && s.email != ""
                      && e == AsSigner(s, orders, t.docusignTemplateId))
    && (forall e :: e in p.carbonCopies <==>
          exists s :: s in signers && s.roleId !in t.recipientRoles && e == AsCarbonCopy(s, orders))
  }

  lemma PayloadEntries(t: Template, signers: seq<Signer>, orders: seq<string>)
    requires Distinct(t.recipientRoles)
    ensures EveryoneHasTheirId(Payload(t, signers, orders), t, signers, orders)
  {
    SignerEntries(t, signers, orders);
    CopyEntries(t, signers, orders);
  }

  lemma SignerEntries(t: Template, signers: seq<Signer>, orders: seq<string>)
    requires Distinct(t.recipientRoles)
    ensures forall e :: e in Payload(t, signers, orders).signers <==>
              exists s :: IsFirstOfRole(signers, s) && s.roleId in t.recipientRoles && s.email != ""
                          && e == AsSigner(s, orders, t.docusignTemplateId)
  {
    var entries, signing := Payload(t, signers, orders).signers, Signing(t.recipientRoles, signers);
    forall s
      ensures s in signing <==> IsFirstOfRole(signers, s) && s.roleId in t.recipientRoles && s.email != ""
    {
      SigningAndCopied(t.recipientRoles, signers, s);
    }
    assert forall k :: 0 <= k < |signing| ==> entries[k] == AsSigner(signing[k], orders, t.docusignTemplateId);
  }

  lemma CopyEntries(t: Template, signers: seq<Signer>, orders: seq<string>)
    requires Distinct(t.recipientRoles)
    ensures forall e :: e in Payload(t, signers, orders).carbonCopies <==>
              exists s :: s in signers && s.roleId !in t.recipientRoles && e == AsCarbonCopy(s, orders)
  {
    var entries, copied := Payload(t, signers, orders).carbonCopies, Copied(t.recipientRoles, signers);
    forall s
      ensures s in copied <==> s in signers && s.roleId !in t.recipientRoles
    {
      SigningAndCopied(t.recipientRoles, signers, s);
    }
    assert forall k :: 0 <= k < |copied| ==> entries[k] == AsCarbonCopy(copied[k], orders);
  }

  // ---------------------------------------------------------------- the payload, entry by entry

  /** Ids and routing orders count from 1 in the order of the widest template's roles; 0 is for roles it lacks. */
  lemma IdIsPosition(orders: seq<string>, roleId: string, a: int)
    requires -1 <= a < |orders|
    requires a >= 0 ==> orders[a] == roleId && forall b :: 0 <= b < a ==> orders[b] != roleId
    requires a < 0 ==> roleId !in orders
    ensures RecipientId(orders, roleId) == a + 1
  {
    var r := IndexOf(orders, roleId);
    assert forall k :: 0 <= k < |orders| && orders[k] == roleId ==> r <= k by {
      FirstPosition(orders, roleId);
    }
  }

  lemma FirstPosition(s: seq<string>, x: string)
    ensures forall k :: 0 <= k < |s| && s[k] == x ==> IndexOf(s, x) <= k
  {
    var found := (e: string) => e == x;
    assert forall k :: 0 <= k < |s| && s[k] == x ==> found(s[k]);
  }

  /** The first signer with the role. */
  ghost predicate IsFirstWith(signers: seq<Signer>, i: int, roleId: string) {
    && 0 <= i < |signers| && signers[i].roleId == roleId
    && forall k :: 0 <= k < i ==> signers[k].roleId != roleId
  }

  /** The entry says who the signer is, in which place of the widest template's roles they stand, and the template. */
  ghost predicate IsEntryOf(e: SignerEntry, s: Signer, orders: seq<string>, t: Template) {
    && e.email == s.email && e.name == (if s.fullName != "" then s.fullName else s.role) && e.roleName == s.role
    && e.templateId == t.docusignTemplateId && e.recipientId == e.routingOrder
    && IsPlace(orders, s.roleId, e.routingOrder - 1)
  }

  ghost predicate IsCopyOf(e: CarbonCopy, s: Signer, orders: seq<string>) {
    && e.email == s.email && e.name == (if s.fullName != "" then s.fullName else s.role)
    && e.recipientId == e.routingOrder && IsPlace(orders, s.roleId, e.routingOrder - 1)
  }

  ghost predicate IsPlace(orders: seq<string>, roleId: string, a: int) {
    && -1 <= a < |orders| && (a < 0 ==> roleId !in orders)
    && (a >= 0 ==> orders[a] == roleId && forall b :: 0 <= b < a ==> orders[b] != roleId)
  }

  lemma EveryRoleHasAPlace(orders: seq<string>, roleId: string)
    ensures IsPlace(orders, roleId, RecipientId(orders, roleId) - 1)
  {
    FirstPosition(orders, roleId);
  }

  /** Positions below n, going up. */
  ghost predicate Ascends(at: seq<nat>, n: nat) {
    && (forall a, b :: 0 <= a < b < |at| ==> at[a] < at[b])
    && forall a :: 0 <= a < |at| ==> at[a] < n
  }

  /** The role has a signer, and the first one has an email. */
  ghost predicate HasSigner(signers: seq<Signer>, roleId: string) {
    exists i :: IsFirstWith(signers, i, roleId) && signers[i].email != ""
  }

  lemma FirstWith(signers: seq<Signer>, roleId: string)
    ensures var r := FindIndex(signers, HasRoleId(roleId));
            forall i :: IsFirstWith(signers, i, roleId) <==> r >= 0 && i == r
  {
    var r := FindIndex(signers, HasRoleId(roleId));
    assert r >= 0 ==> signers[r].roleId == roleId;
    assert forall k :: 0 <= k < |signers| && signers[k].roleId == roleId ==> HasRoleId(roleId)(signers[k]);
  }

  /** The positions of the marks that are set. */
  function Positions(marks: seq<bool>): seq<nat> {
    if marks == [] then [] else Positions(Init(marks)) + if Last(marks) then [|marks| - 1] else []
  }

  lemma {:induction false} PositionsAre(marks: seq<bool>)
    ensures Ascends(Positions(marks), |marks|)
    ensures forall n :: 0 <= n < |marks| ==> (n in Positions(marks) <==> marks[n])
  {
    if marks != [] {
      PositionsAre(Init(marks));
      assert forall n :: 0 <= n < |marks| - 1 ==> Init(marks)[n] == marks[n];
      assert |marks| - 1 !in Positions(Init(marks));
    }
  }

  function SignerFor(signers: seq<Signer>, roleId: string): int {
    FindIndex(signers, HasRoleId(roleId))
  }

  /** Which roles of a template have a signer, and which signers have another role. */
  function SigningMarks(roles: seq<string>, signers: seq<Signer>): seq<bool> {
    seq(|roles|, n requires 0 <= n < |roles| =>
      SignerFor(signers, roles[n]) >= 0 && signers[SignerFor(signers, roles[n])].email != "")
  }

  function CopiedMarks(roles: seq<string>, signers: seq<Signer>): seq<bool> {
    seq(|signers|, n requires 0 <= n < |signers| => signers[n].roleId !in roles)
  }

  /** The k-th signer is the one for the role at the k-th of these positions. */
  ghost predicate StandAt(signing: seq<Signer>, at: seq<nat>, roles: seq<string>, signers: seq<Signer>) {
    && |at| == |signing|
    && forall k :: 0 <= k < |at| ==> at[k] < |roles| && IsSignerFor(signing[k], roles[at[k]], signers)
  }

  predicate IsSignerFor(s: Signer, roleId: string, signers: seq<Signer>) {
    SignerFor(signers, roleId) >= 0 && signers[SignerFor(signers, roleId)] == s
  }

  lemma StandAtLonger(signing: seq<Signer>, at: seq<nat>, roles: seq<string>, signers: seq<Signer>)
    requires roles != [] && StandAt(signing, at, Init(roles), signers)
    ensures StandAt(signing, at, roles, signers)
    ensures forall s :: IsSignerFor(s, Last(roles), signers) ==>
              StandAt(signing + [s], at + [|roles| - 1], roles, signers)
  {
    forall k | 0 <= k < |at|
      ensures at[k] < |roles| && IsSignerFor(signing[k], roles[at[k]], signers)
    {
      assert IsSignerFor(signing[k], Init(roles)[at[k]], signers);
    }
  }

  /** Signers stand in the order of the template's roles. */
  lemma {:induction false} SigningPositions(roles: seq<string>, signers: seq<Signer>)
    ensures StandAt(Signing(roles, signers), Positions(SigningMarks(roles, signers)), roles, signers)
  {
    if roles != [] {
      SigningPositions(Init(roles), signers);
      assert Init(SigningMarks(roles, signers)) == SigningMarks(Init(roles), signers);
      var earlier := Positions(SigningMarks(Init(roles), signers));
      StandAtLonger(Signing(Init(roles), signers), earlier, roles, signers);
    }
  }

  /** Copies stand in the order of the signers. */
  lemma {:induction false} CopiedPositions(roles: seq<string>, signers: seq<Signer>)
    ensures var at := Positions(CopiedMarks(roles, signers));
            && |at| == |Copied(roles, signers)|
            && forall k :: 0 <= k < |at| ==> at[k] < |signers| && Copied(roles, signers)[k] == signers[at[k]]
  {
    if signers != [] {
      CopiedPositions(roles, Init(signers));
      assert Init(CopiedMarks(roles, signers)) == CopiedMarks(roles, Init(signers));
    }
  }

  /** The entries are those of the signers of the roles at these positions. */
  ghost predicate AreSigners(entries: seq<SignerEntry>, at: seq<nat>, t: Template, signers: seq<Signer>,
                             orders: seq<string>)
  {
    && |entries| == |at| && Ascends(at, |t.recipientRoles|)
    && (forall n :: 0 <= n < |t.recipientRoles| ==> (n in at <==> HasSigner(signers, t.recipientRoles[n])))
    && forall k :: 0 <= k < |at| ==>
         exists i :: IsFirstWith(signers, i, t.recipientRoles[at[k]]) && IsEntryOf(entries[k], signers[i], orders, t)
  }

  /** The copies are those of the signers at these positions. */
  ghost predicate AreCopies(entries: seq<CarbonCopy>, at: seq<nat>, t: Template, signers: seq<Signer>,
                            orders: seq<string>)
  {
    && |entries| == |at| && Ascends(at, |signers|)
    && (forall n :: 0 <= n < |signers| ==> (n in at <==> signers[n].roleId !in t.recipientRoles))
    && forall k :: 0 <= k < |at| ==> IsCopyOf(entries[k], signers[at[k]], orders)
  }

  /** The whole payload of a template: what it names, who signs and who gets a copy, in which order and place. */
  lemma PayloadExactly(t: Template, signers: seq<Signer>, orders: seq<string>)
    returns (signing: seq<nat>, copied: seq<nat>)
    ensures var p := Payload(t, signers, orders);
            && p.templateId == t.docusignTemplateId && p.serverSequence == 1 && p.inlineSequence == 2
            && AreSigners(p.signers, signing, t, signers, orders)
            && AreCopies(p.carbonCopies, copied, t, signers, orders)
  {
    signing := SignersAre(t, signers, orders);
    copied := CopiesAre(t, signers, orders);
  }

  lemma SignersAre(t: Template, signers: seq<Signer>, orders: seq<string>) returns (at: seq<nat>)
    ensures AreSigners(Payload(t, signers, orders).signers, at, t, signers, orders)
  {
    at := Positions(SigningMarks(t.recipientRoles, signers));
    MarksAreSigners(t.recipientRoles, signers);
    SigningPositions(t.recipientRoles, signers);
    forall k | 0 <= k < |at|
      ensures exists i :: IsFirstWith(signers, i, t.recipientRoles[at[k]])
                          && IsEntryOf(Payload(t, signers, orders).signers[k], signers[i], orders, t)
    {
      var s := Signing(t.recipientRoles, signers)[k];
      assert IsSignerFor(s, t.recipientRoles[at[k]], signers);
      FirstWith(signers, t.recipientRoles[at[k]]);
      EntryIs(s, orders, t);
    }
  }

  lemma MarksAreSigners(roles: seq<string>, signers: seq<Signer>)
    ensures var at := Positions(SigningMarks(roles, signers));
            Ascends(at, |roles|) && forall n :: 0 <= n < |roles| ==> (n in at <==> HasSigner(signers, roles[n]))
  {
    PositionsAre(SigningMarks(roles, signers));
    forall n | 0 <= n < |roles|
      ensures SigningMarks(roles, signers)[n] <==> HasSigner(signers, roles[n])
    {
      FirstWith(signers, roles[n]);
    }
  }

  lemma EntryIs(s: Signer, orders: seq<string>, t: Template)
    ensures IsEntryOf(AsSigner(s, orders, t.docusignTemplateId), s, orders, t)
  {
    EveryRoleHasAPlace(orders, s.roleId);
  }

  lemma CopiesAre(t: Template, signers: seq<Signer>, orders: seq<string>) returns (at: seq<nat>)
    ensures AreCopies(Payload(t, signers, orders).carbonCopies, at, t, signers, orders)
  {
    at := Positions(CopiedMarks(t.recipientRoles, signers));
    PositionsAre(CopiedMarks(t.recipientRoles, signers));
    CopiedPositions(t.recipientRoles, signers);
    forall k | 0 <= k < |at|
      ensures IsCopyOf(Payload(t, signers, orders).carbonCopies[k], signers[at[k]], orders)
    {
      EveryRoleHasAPlace(orders, signers[at[k]].roleId);
    }
  }
}
