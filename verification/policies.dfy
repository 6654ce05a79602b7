/** Password policies: the `pwpolicy -setpolicy` argument built from the
    configured policies, and the two commands that apply a policy to a user. */
module Policies {

  import opened Wrappers
  import opened Text
  import opened Commands

  /** The configured policy values. */
  datatype PolicySettings = PolicySettings(
    reusePassword: int,
    requireAlpha: bool,
    requireNumeric: bool,
    minChars: int,
    maxChars: int,
    changeOnLogin: bool)

  /** The largest password history pwpolicy takes. */
  const MaxHistory: int := 15

  /** boolToInt. */
  function BoolToInt(b: bool): (r: int)
    ensures 0 <= r <= 1
    ensures r == 1 <==> b
  {
    if b then 1 else 0
  }

  /** formatPolicy for the `name=%d` patterns. */
  function FormatPolicy(name: string, value: int): string
  {
    name + "=" + Decimal(value)
  }

  /** A policy BuildCommand may append: whether it does, and the name and
      value its token is formatted from. */
  datatype PolicyEntry = PolicyEntry(on: bool, name: string, value: int)
  {
    /** The `name=value` token. */
    function Token(): string
    {
      FormatPolicy(name, value)
    }
  }

  /** The six policies in the order BuildCommand considers them, as written:
      the booleans that are set, the character bounds that are non-zero, and
      the history only when it is between 1 and 15. */
  function Entries(p: PolicySettings): (e: seq<PolicyEntry>)
    ensures |e| == 6
  {
    [PolicyEntry(p.changeOnLogin, "newPasswordRequired", BoolToInt(p.changeOnLogin)),
     PolicyEntry(p.requireAlpha, "requiresAlpha", BoolToInt(p.requireAlpha)),
     PolicyEntry(p.requireNumeric, "requiresNumeric", BoolToInt(p.requireNumeric)),
     PolicyEntry(p.maxChars != 0, "maxChars", p.maxChars),
     PolicyEntry(p.minChars != 0, "minChars", p.minChars),
     PolicyEntry(0 < p.reusePassword <= MaxHistory, "usingHistory", p.reusePassword)]
  }

  /** The first five entries: the flags and character bounds BuildCommand considers before the history. */
  function FlagEntries(p: PolicySettings): (e: seq<PolicyEntry>)
    ensures e + [Entries(p)[5]] == Entries(p)
  {
    Entries(p)[..5]
  }

  /** The tokens of the entries that are on, in order. */
  function Present(e: seq<PolicyEntry>): seq<string>
  {
    if e == [] then []
    else Present(e[..|e| - 1]) + if Last(e).on then [Last(e).Token()] else []
  }

  /** The tokens BuildCommand joins, as written. */
  function PolicyTokens(p: PolicySettings): seq<string>
  {
    Present(Entries(p))
  }

  /** The settings after BuildCommand: a history above 15 is lowered to 15. */
  function Clamped(p: PolicySettings): (r: PolicySettings)
    ensures r.reusePassword <= MaxHistory
    ensures r.reusePassword == p.reusePassword || (p.reusePassword > MaxHistory && r.reusePassword == MaxHistory)
    ensures r.(reusePassword := p.reusePassword) == p
  {
    if p.reusePassword > MaxHistory then p.(reusePassword := MaxHistory) else p
  }

  /** The tokens as intended: a history above 15 is emitted as 15. */
  function PolicyTokensCorrected(p: PolicySettings): seq<string>
  {
    PolicyTokens(Clamped(p))
  }

  /** The configured policies, which BuildCommand updates in place. */
  class Policies {
    var settings: PolicySettings

    constructor(settings: PolicySettings)
      ensures this.settings == settings
    {
      this.settings := settings;
    }

    /** BuildCommand as written: clamps the history in the receiver but leaves
        it out of the command it returns. */
    method BuildCommandAsWritten() returns (r: string)
      modifies this
      ensures r == Join(PolicyTokens(old(settings)), " ")
      ensures settings == Clamped(old(settings))
    {
      var p := settings;
      var policies := LengthAndFlagPolicies(p);
      if p.reusePassword > MaxHistory {
        settings := settings.(reusePassword := MaxHistory);
      } else if p.reusePassword > 0 {
        policies := policies + [FormatPolicy("usingHistory", p.reusePassword)];
      }
      PresentSnoc(FlagEntries(p), Entries(p)[5]);
      assert policies == PolicyTokens(p);
      r := Join(policies, " ");
    }

    /** BuildCommand as intended: clamps the history and emits the clamped value. */
    method BuildCommand() returns (r: string)
      modifies this
      ensures r == Join(PolicyTokensCorrected(old(settings)), " ")
      ensures settings == Clamped(old(settings))
    {
      if settings.reusePassword > MaxHistory {
        settings := settings.(reusePassword := MaxHistory);
      }
      var p := settings;
      var policies := LengthAndFlagPolicies(p);
      if p.reusePassword > 0 {
        policies := policies + [FormatPolicy("usingHistory", p.reusePassword)];
      }
      PresentSnoc(FlagEntries(p), Entries(p)[5]);
      assert policies == PolicyTokens(p);
      r := Join(policies, " ");
    }

    /** The boolean and character-count policies BuildCommand appends first. */
    static method LengthAndFlagPolicies(p: PolicySettings) returns (policies: seq<string>)
      ensures policies == Present(FlagEntries(p))
    {
      ghost var e := Entries(p);
      policies := [];
      assert e[..0] == [];
      policies := AppendIf(policies, e, 0, p.changeOnLogin, "newPasswordRequired", BoolToInt(p.changeOnLogin));
      policies := AppendIf(policies, e, 1, p.requireAlpha, "requiresAlpha", BoolToInt(p.requireAlpha));
      policies := AppendIf(policies, e, 2, p.requireNumeric, "requiresNumeric", BoolToInt(p.requireNumeric));
      policies := AppendIf(policies, e, 3, p.maxChars != 0, "maxChars", p.maxChars);
      policies := AppendIf(policies, e, 4, p.minChars != 0, "minChars", p.minChars);
    }

    /** One `if <setting> { policies = append(policies, <token>) }` of BuildCommand,
        the setting and token being entry `k`. */
    static method AppendIf(policies: seq<string>, ghost e: seq<PolicyEntry>, ghost k: nat,
                           on: bool, name: string, value: int)
      returns (policies': seq<string>)
      requires k < |e| && e[k] == PolicyEntry(on, name, value) && policies == Present(e[..k])
      ensures policies' == Present(e[..k + 1])
    {
      PresentStep(e, k);
      policies' := policies;
      if on {
        policies' := policies' + [FormatPolicy(name, value)];
      }
    }
  }

  /** One more entry considered. */
  lemma PresentStep(e: seq<PolicyEntry>, i: int)
    requires 0 <= i < |e|
    ensures Present(e[..i + 1]) == Present(e[..i]) + if e[i].on then [e[i].Token()] else []
  {
    assert e[..i + 1][..i] == e[..i];
  }

  /** One more entry at the end. */
  lemma PresentSnoc(e: seq<PolicyEntry>, x: PolicyEntry)
    ensures Present(e + [x]) == Present(e) + if x.on then [x.Token()] else []
  {
    assert (e + [x])[..|e|] == e;
  }

  // ---------------------------------------------------------------- properties

  /** A token is present exactly when some entry carrying it is on. */
  lemma {:induction false} PresentMembers(e: seq<PolicyEntry>)
    ensures forall x :: x in Present(e) <==> exists k :: 0 <= k < |e| && e[k].on && e[k].Token() == x
  {
    if e != [] {
      var front := e[..|e| - 1];
      PresentMembers(front);
      assert forall k :: 0 <= k < |front| ==> front[k] == e[k];
    }
  }

  /** The characters that tell the six tokens apart. */
  lemma TokenChars(p: PolicySettings)
    ensures Entries(p)[0].Token()[0] == 'n' && Entries(p)[1].Token()[0] == 'r' && Entries(p)[2].Token()[0] == 'r'
    ensures Entries(p)[3].Token()[0] == 'm' && Entries(p)[4].Token()[0] == 'm' && Entries(p)[5].Token()[0] == 'u'
    ensures Entries(p)[1].Token()[8] == 'A' && Entries(p)[2].Token()[8] == 'N'
    ensures Entries(p)[3].Token()[1] == 'a' && Entries(p)[4].Token()[1] == 'i'
  {
  }

  /** A policy's token is in the command exactly when its entry is on. */
  lemma EntryIff(p: PolicySettings, k: int)
    requires 0 <= k < 6
    ensures Entries(p)[k].Token() in PolicyTokens(p) <==> Entries(p)[k].on
  {
    var e := Entries(p);
    TokenChars(p);
    PresentMembers(e);
    assert forall j :: 0 <= j < 6 && j != k ==> e[j].Token() != e[k].Token();
  }

  /** A set flag renders as `name=1`. */
  lemma FlagToken(name: string, b: bool)
    requires b
    ensures FormatPolicy(name, BoolToInt(b)) == name + "=1"
  {
    assert Decimal(1) == "1";
  }

  /** A string no entry that is on carries is not in the command. */
  lemma NotInTokens(p: PolicySettings, x: string)
    requires forall k :: 0 <= k < 6 && Entries(p)[k].on ==> Entries(p)[k].Token() != x
    ensures x !in PolicyTokens(p)
  {
    PresentMembers(Entries(p));
  }

  /** newPasswordRequired appears in the command exactly when it is set. */
  lemma ChangeOnLoginIff(p: PolicySettings)
    ensures FormatPolicy("newPasswordRequired", 1) in PolicyTokens(p) <==> p.changeOnLogin
  {
    if p.changeOnLogin {
      EntryIff(p, 0);
    } else {
      TokenChars(p);
      assert FormatPolicy("newPasswordRequired", 1)[0] == 'n';
      NotInTokens(p, FormatPolicy("newPasswordRequired", 1));
    }
  }

  /** requiresAlpha appears in the command exactly when it is set. */
  lemma RequireAlphaIff(p: PolicySettings)
    ensures FormatPolicy("requiresAlpha", 1) in PolicyTokens(p) <==> p.requireAlpha
  {
    if p.requireAlpha {
      EntryIff(p, 1);
    } else {
      TokenChars(p);
      assert FormatPolicy("requiresAlpha", 1)[0] == 'r' && FormatPolicy("requiresAlpha", 1)[8] == 'A';
      NotInTokens(p, FormatPolicy("requiresAlpha", 1));
    }
  }

  /** requiresNumeric appears in the command exactly when it is set. */
  lemma RequireNumericIff(p: PolicySettings)
    ensures FormatPolicy("requiresNumeric", 1) in PolicyTokens(p) <==> p.requireNumeric
  {
    if p.requireNumeric {
      EntryIff(p, 2);
    } else {
      TokenChars(p);
      assert FormatPolicy("requiresNumeric", 1)[0] == 'r' && FormatPolicy("requiresNumeric", 1)[8] == 'N';
      NotInTokens(p, FormatPolicy("requiresNumeric", 1));
    }
  }

  /** The character bounds and the history appear exactly when BuildCommand's
      conditions on them hold. */
  lemma ValueTokensIff(p: PolicySettings)
    ensures FormatPolicy("maxChars", p.maxChars) in PolicyTokens(p) <==> p.maxChars != 0
    ensures FormatPolicy("minChars", p.minChars) in PolicyTokens(p) <==> p.minChars != 0
    ensures FormatPolicy("usingHistory", p.reusePassword) in PolicyTokens(p)
      <==> 0 < p.reusePassword <= MaxHistory
  {
    EntryIff(p, 3);
    EntryIff(p, 4);
    EntryIff(p, 5);
  }

  lemma FormatPolicyNoSpace(name: string, value: int)
    requires ' ' !in name
    ensures ' ' !in FormatPolicy(name, value)
  {
    DecimalChars(value);
    assert forall i :: 0 <= i < |Decimal(value)| ==> Decimal(value)[i] != ' ';
  }

  /** No policy name holds a space. */
  lemma NamesHaveNoSpace(p: PolicySettings)
    ensures forall k :: 0 <= k < 6 ==> ' ' !in Entries(p)[k].name
  {
    assert ' ' !in "newPasswordRequired" && ' ' !in "requiresAlpha" && ' ' !in "requiresNumeric";
    assert ' ' !in "maxChars" && ' ' !in "minChars" && ' ' !in "usingHistory";
  }

  /** No policy token holds a space. */
  lemma EntriesHaveNoSpace(p: PolicySettings)
    ensures forall k :: 0 <= k < 6 ==> ' ' !in Entries(p)[k].Token()
  {
    NamesHaveNoSpace(p);
    forall k | 0 <= k < 6
      ensures ' ' !in Entries(p)[k].Token()
    {
      FormatPolicyNoSpace(Entries(p)[k].name, Entries(p)[k].value);
    }
  }

  /** No token holds a space. */
  lemma TokensHaveNoSpace(p: PolicySettings)
    ensures forall x :: x in PolicyTokens(p) ==> ' ' !in x
  {
    EntriesHaveNoSpace(p);
    PresentMembers(Entries(p));
  }

  /** The command splits back on spaces into exactly its tokens. */
  lemma CommandSplitsIntoTokens(p: PolicySettings)
    requires PolicyTokens(p) != []
    ensures Split(Join(PolicyTokens(p), " "), ' ') == PolicyTokens(p)
  {
    TokensHaveNoSpace(p);
    SplitJoin(PolicyTokens(p), ' ');
  }

  /** No entry on, no token. */
  lemma {:induction false} PresentNone(e: seq<PolicyEntry>)
    requires forall k :: 0 <= k < |e| ==> !e[k].on
    ensures Present(e) == []
  {
    if e != [] {
      PresentNone(e[..|e| - 1]);
    }
  }

  /** Every entry on, every token in order. */
  lemma {:induction false} PresentAll(e: seq<PolicyEntry>)
    requires forall k :: 0 <= k < |e| ==> e[k].on
    ensures |Present(e)| == |e|
    ensures forall k :: 0 <= k < |e| ==> Present(e)[k] == e[k].Token()
  {
    if e != [] {
      PresentAll(e[..|e| - 1]);
    }
  }

  /** A zero-valued Policies struct gives the empty command. */
  lemma ZeroPoliciesEmpty()
    ensures PolicyTokens(PolicySettings(0, false, false, 0, 0, false)) == []
    ensures Join(PolicyTokens(PolicySettings(0, false, false, 0, 0, false)), " ") == ""
  {
    PresentNone(Entries(PolicySettings(0, false, false, 0, 0, false)));
  }

  /** The sample configuration (history 3, 5 to 15 characters, letters and
      digits required, change on login) gives all six tokens in order. */
  lemma SampleConfigTokens()
    ensures PolicyTokens(PolicySettings(3, true, true, 5, 15, true))
      == ["newPasswordRequired=1", "requiresAlpha=1", "requiresNumeric=1", "maxChars=15", "minChars=5", "usingHistory=3"]
  {
    var e := Entries(PolicySettings(3, true, true, 5, 15, true));
    PresentAll(e);
    FlagToken("newPasswordRequired", true);
    FlagToken("requiresAlpha", true);
    FlagToken("requiresNumeric", true);
    assert Decimal(15) == "15";
    assert Decimal(5) == "5";
    assert Decimal(3) == "3";
    assert e[3].Token() == "maxChars=15";
    assert e[4].Token() == "minChars=5";
    assert e[5].Token() == "usingHistory=3";
    var want := ["newPasswordRequired=1", "requiresAlpha=1", "requiresNumeric=1", "maxChars=15", "minChars=5", "usingHistory=3"];
    assert forall k :: 0 <= k < 6 ==> Present(e)[k] == want[k];
  }

  /** As written, a history above 15 is left out of the first command but,
      clamped in the receiver, emitted as 15 by the next one. */
  lemma HistoryAboveLimitAsWritten(p: PolicySettings)
    requires p.reusePassword > MaxHistory
    ensures forall x :: x in PolicyTokens(p) ==> x != [] && x[0] != 'u'
    ensures "usingHistory=15" in PolicyTokens(Clamped(p))
    ensures PolicyTokens(Clamped(p)) != PolicyTokens(p)
  {
    HistoryLeftOut(p);
    var q := Clamped(p);
    assert Decimal(15) == "15";
    assert Entries(q)[5].Token() == "usingHistory=15";
    EntryIff(q, 5);
    assert "usingHistory=15"[0] == 'u';
  }

  /** A history the range check rejects leaves no `usingHistory` token. */
  lemma HistoryLeftOut(p: PolicySettings)
    requires p.reusePassword > MaxHistory
    ensures forall x :: x in PolicyTokens(p) ==> x != [] && x[0] != 'u'
  {
    PresentMembers(Entries(p));
    TokenChars(p);
  }

  /** As intended, the history is emitted whenever it is positive, capped at 15. */
  lemma HistoryCorrected(p: PolicySettings)
    ensures (FormatPolicy("usingHistory", if p.reusePassword > MaxHistory then MaxHistory else p.reusePassword)
      in PolicyTokensCorrected(p)) <==> p.reusePassword > 0
  {
    EntryIff(Clamped(p), 5);
  }

  /** As intended, every call builds the same command: the clamp changes nothing the next time. */
  lemma CorrectedStable(p: PolicySettings)
    ensures Clamped(Clamped(p)) == Clamped(p)
    ensures PolicyTokensCorrected(Clamped(p)) == PolicyTokensCorrected(p)
  {
  }

  // ---------------------------------------------------------------- applying a policy

  function SetPolicyCommand(command: string, user: string): Command
  {
    Bash("sudo pwpolicy -u '" + user + "' -setpolicy '" + command + "'")
  }

  function SetPolicyPlistCommand(plistPath: string, user: string): Command
  {
    Bash("sudo pwpolicy -u '" + user + "' -setaccountpolicies '" + plistPath + "'")
  }

  /** SetPolicy: the trimmed output, or the command's error. */
  function SetPolicy(command: string, user: string, shell: Shell): (r: Result<string>)
    ensures r.Failure? <==> !shell(SetPolicyCommand(command, user)).ok
    ensures r.Failure? ==> r.msg == shell(SetPolicyCommand(command, user)).err
    ensures r.Ok? ==> Contains(shell(SetPolicyCommand(command, user)).output, r.value)
  {
    var o := shell(SetPolicyCommand(command, user));
    assert o.output[0..] == o.output;
    TrimmedSliceOccurs(o.output, 0);
    if !o.ok then Failure(o.err) else Ok(TrimSpace(o.output))
  }

  /** SetPolicyPlist: the trimmed output, or the command's error. */
  function SetPolicyPlist(plistPath: string, user: string, shell: Shell): (r: Result<string>)
    ensures r.Failure? <==> !shell(SetPolicyPlistCommand(plistPath, user)).ok
    ensures r.Failure? ==> r.msg == shell(SetPolicyPlistCommand(plistPath, user)).err
    ensures r.Ok? ==> Contains(shell(SetPolicyPlistCommand(plistPath, user)).output, r.value)
  {
    var o := shell(SetPolicyPlistCommand(plistPath, user));
    assert o.output[0..] == o.output;
    TrimmedSliceOccurs(o.output, 0);
    if !o.ok then Failure(o.err) else Ok(TrimSpace(o.output))
  }
}
