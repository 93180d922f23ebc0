/** The federation target a database handle is configured with, and the
    context-switch statements built from it. */
module Federation {
  import opened Decimal

  /** Which federation context a handle works in: a plain database, the
      federation root, one member selected by a key, or every member. */
  datatype FederationType = None | Root | Member | All

  /** A federation key as an object handed to string formatting: a null
      reference (formatted as nothing), a `long`, or any other object,
      represented by the text it formats to. */
  datatype Key = NullKey | IntKey(n: int) | TextKey(text: string)

  /** The immutable configuration of one database handle. A null name or
      distribution name is represented by the empty string, which is what
      string formatting makes of it. */
  datatype Handle = Handle(
    federationType: FederationType,
    federationName: string,
    distributionName: string,
    federationKey: Key)

  const RootStatement := "USE FEDERATION ROOT WITH RESET"

  /** The text a key formats to. The text of an integer key reads back as
      that key. */
  function KeyText(k: Key): (s: string)
    ensures k.IntKey? ==>
      && |s| > 0 && (if s[0] == '-' then AllDigits(s[1..]) else AllDigits(s))
      && TextToInt(s) == k.n
  {
    match k
    case NullKey => ""
    case IntKey(n) => IntToTextRoundTrip(n); IntToText(n)
    case TextKey(t) => t
  }

  /** The member statement up to the key, and after it. */
  function MemberHead(federationName: string, distributionName: string): string {
    "USE FEDERATION " + federationName + " (" + distributionName + "='"
  }

  function MemberTail(filterOn: bool): string {
    "') WITH RESET, FILTERING = " + (if filterOn then "ON" else "OFF")
  }

  /** The member statement template, filled in. */
  function MemberTemplate(federationName: string, distributionName: string, keyText: string, filterOn: bool): string
  {
    MemberHead(federationName, distributionName) + keyText + MemberTail(filterOn)
  }

  /** The key text read back from a member statement: what lies between its
      head and its tail. */
  function TemplateKey(s: string, federationName: string, distributionName: string, filterOn: bool): string {
    var head := MemberHead(federationName, distributionName);
    var tail := MemberTail(filterOn);
    if |head| + |tail| <= |s| then s[|head|..|s| - |tail|] else ""
  }

  /** GetMemberFederationStatement: a handle configured for the root always
      gets the root statement; any other handle gets the member template, with
      its own federation and distribution names and the given key, which can
      be read back from it. */
  function MemberFederationStatement(h: Handle, filterOn: bool, key: Key): (s: string)
    ensures h.federationType == Root ==> s == RootStatement
    ensures h.federationType != Root ==>
      TemplateKey(s, h.federationName, h.distributionName, filterOn) == KeyText(key)
  {
    if h.federationType == Root then RootStatement
    else
      TemplateKeyReadsBack(h.federationName, h.distributionName, KeyText(key), filterOn);
      MemberTemplate(h.federationName, h.distributionName, KeyText(key), filterOn)
  }

  /** GetUseFederationStatement: the context-switch statement for a requested
      federation type, key and filtering: the root statement when the root
      is requested or the handle is configured for it, and otherwise a member
      statement from which the key text can be read back. */
  function UseFederationStatement(h: Handle, t: FederationType, key: Key, filterOn: bool): (s: string)
    ensures t == Root || h.federationType == Root ==> s == RootStatement
    ensures t != Root && h.federationType != Root ==>
      TemplateKey(s, h.federationName, h.distributionName, filterOn) == KeyText(key)
  {
    if t == Root then RootStatement else MemberFederationStatement(h, filterOn, key)
  }

  /** Requesting the root gives the root statement, whatever the key and the
      filtering. */
  lemma RootArgumentWins(h: Handle, key: Key, filterOn: bool)
    ensures UseFederationStatement(h, Root, key, filterOn) == RootStatement
  {
  }

  /** A handle configured for the root gets the root statement, whatever was
      requested. */
  lemma RootHandleWins(h: Handle, t: FederationType, key: Key, filterOn: bool)
    requires h.federationType == Root
    ensures UseFederationStatement(h, t, key, filterOn) == RootStatement
  {
  }

  /** Otherwise the statement is the member template: names from the handle,
      key from the argument, and `FILTERING = ON` exactly when filtering is
      requested. */
  lemma MemberStatementOtherwise(h: Handle, t: FederationType, key: Key, filterOn: bool)
    requires t != Root && h.federationType != Root
    ensures var s := UseFederationStatement(h, t, key, filterOn);
      && s == "USE FEDERATION " + h.federationName + " (" + h.distributionName + "='" + KeyText(key)
              + "') WITH RESET, FILTERING = " + (if filterOn then "ON" else "OFF")
      && (EndsWith(s, "FILTERING = ON") <==> filterOn)
      && (EndsWith(s, "FILTERING = OFF") <==> !filterOn)
  {
    FilteringSuffix(h.federationName, h.distributionName, KeyText(key), filterOn);
  }

  lemma FilteringSuffix(name: string, dist: string, keyText: string, filterOn: bool)
    ensures var s := MemberTemplate(name, dist, keyText, filterOn);
      && (EndsWith(s, "FILTERING = ON") <==> filterOn)
      && (EndsWith(s, "FILTERING = OFF") <==> !filterOn)
  {
    var s := MemberTemplate(name, dist, keyText, filterOn);
    var p := "USE FEDERATION " + name + " (" + dist + "='" + keyText + "') WITH RESET, ";
    assert s == p + (if filterOn then "FILTERING = ON" else "FILTERING = OFF");
    if filterOn {
      assert s[|s| - 14..] == "FILTERING = ON";
      assert !EndsWith(s, "FILTERING = OFF") by { assert "FILTERING = OFF"[14] == 'F' && s[|s| - 1] == 'N'; }
    } else {
      assert s[|s| - 15..] == "FILTERING = OFF";
      assert !EndsWith(s, "FILTERING = ON") by { assert "FILTERING = ON"[13] == 'N' && s[|s| - 1] == 'F'; }
    }
  }

  predicate EndsWith(s: string, suffix: string) {
    |suffix| <= |s| && s[|s| - |suffix|..] == suffix
  }

  /** The statement is the root statement exactly when the root is
      requested or the handle is configured for it: no member statement is
      the root statement. */
  lemma RootStatementExactly(h: Handle, t: FederationType, key: Key, filterOn: bool)
    ensures UseFederationStatement(h, t, key, filterOn) == RootStatement <==> (t == Root || h.federationType == Root)
  {
    if t != Root && h.federationType != Root {
      FilteringSuffix(h.federationName, h.distributionName, KeyText(key), filterOn);
      RootIsNoTemplate();
    }
  }

  /** The root statement ends in neither filtering clause. */
  lemma RootIsNoTemplate()
    ensures !EndsWith(RootStatement, "FILTERING = ON") && !EndsWith(RootStatement, "FILTERING = OFF")
  {
    assert RootStatement[|RootStatement| - 1] == 'T';
    assert "FILTERING = ON"[13] == 'N' && "FILTERING = OFF"[14] == 'F';
  }

  /** The key text is read back from the filled template. */
  lemma TemplateKeyReadsBack(name: string, dist: string, keyText: string, filterOn: bool)
    ensures TemplateKey(MemberTemplate(name, dist, keyText, filterOn), name, dist, filterOn) == keyText
  {
    var head := MemberHead(name, dist);
    var tail := MemberTail(filterOn);
    var s := MemberTemplate(name, dist, keyText, filterOn);
    assert |s| == |head| + |keyText| + |tail|;
    assert s[|head|..|s| - |tail|] == keyText;
  }

  /** The member statement determines the key text it was built from: the
      template can be read back. */
  lemma MemberTemplateDeterminesKey(name: string, dist: string, k1: string, k2: string, filterOn: bool)
    requires MemberTemplate(name, dist, k1, filterOn) == MemberTemplate(name, dist, k2, filterOn)
    ensures k1 == k2
  {
    TemplateKeyReadsBack(name, dist, k1, filterOn);
    TemplateKeyReadsBack(name, dist, k2, filterOn);
  }

  /** Two member switches of a non-root handle to different integer keys,
      with the same filtering, are different statements. */
  lemma DistinctKeysGiveDistinctSwitches(h: Handle, m: int, n: int, filterOn: bool)
    requires h.federationType != Root && m != n
    ensures UseFederationStatement(h, Member, IntKey(m), filterOn)
         != UseFederationStatement(h, Member, IntKey(n), filterOn)
  {
    if UseFederationStatement(h, Member, IntKey(m), filterOn) == UseFederationStatement(h, Member, IntKey(n), filterOn) {
      MemberTemplateDeterminesKey(h.federationName, h.distributionName, IntToText(m), IntToText(n), filterOn);
      IntToTextInjective(m, n);
    }
  }

  /** The worked case: federation Orders_Fed, distribution Tenant_ID, key 42,
      filtering on. */
  lemma OrdersFedExample()
    ensures UseFederationStatement(Handle(Member, "Orders_Fed", "Tenant_ID", IntKey(42)), Member, IntKey(42), true)
         == "USE FEDERATION Orders_Fed (Tenant_ID='42') WITH RESET, FILTERING = ON"
  {
    var h := Handle(Member, "Orders_Fed", "Tenant_ID", IntKey(42));
    assert NatToText(4) == "4";
    assert KeyText(IntKey(42)) == "42";
    assert UseFederationStatement(h, Member, IntKey(42), true) == MemberTemplate("Orders_Fed", "Tenant_ID", "42", true);
    OrdersFedTemplate();
  }

  lemma OrdersFedTemplate()
    ensures MemberTemplate("Orders_Fed", "Tenant_ID", "42", true)
         == "USE FEDERATION Orders_Fed (Tenant_ID='42') WITH RESET, FILTERING = ON"
  {
    OrdersFedHead();
    OrdersFedTail();
  }

  /** The rest of the template, after the key. */
  lemma OrdersFedTail()
    ensures "USE FEDERATION Orders_Fed (Tenant_ID='42" + ("') WITH RESET, FILTERING = " + "ON")
         == "USE FEDERATION Orders_Fed (Tenant_ID='42') WITH RESET, FILTERING = ON"
  {
    assert "') WITH RESET, FILTERING = " + "ON" == "') WITH RESET, FILTERING = ON";
  }

  /** The template up to the key, concatenated one piece at a time. */
  lemma OrdersFedHead()
    ensures "USE FEDERATION " + "Orders_Fed" + " (" + "Tenant_ID" + "='" + "42" == "USE FEDERATION Orders_Fed (Tenant_ID='42"
  {
    assert "USE FEDERATION " + "Orders_Fed" == "USE FEDERATION Orders_Fed";
    assert "USE FEDERATION Orders_Fed" + " (" == "USE FEDERATION Orders_Fed (";
    assert "USE FEDERATION Orders_Fed (" + "Tenant_ID" == "USE FEDERATION Orders_Fed (Tenant_ID";
    assert "USE FEDERATION Orders_Fed (Tenant_ID" + "='" == "USE FEDERATION Orders_Fed (Tenant_ID='";
    assert "USE FEDERATION Orders_Fed (Tenant_ID='" + "42" == "USE FEDERATION Orders_Fed (Tenant_ID='42";
  }
}
