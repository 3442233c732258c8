/** The command line of an invocation: flat option lists become options per secret. What the
    command line accepts, the library accepts too. */
module RunOptions {
  import opened Wrappers
  import opened SecretOptions

  /** The parsed arguments. Options that take several values are flattened into one list. */
  datatype RunCommand = RunCommand(
    secrets: seq<string>,
    onlyEnv: seq<string>,
    omitEnv: seq<string>,
    renameEnv: seq<string>,
    stdin: Option<(string, string)>)

  datatype RunOptionsError = DuplicateSecret(secret: string) | Environment

  type Secrets = map<string, EnvironmentOptions>

  predicate IsShellStart(c: char) { 'A' <= c <= 'Z' || 'a' <= c <= 'z' || c == '_' }

  predicate IsShellName(name: string) {
    name != [] && IsShellStart(name[0]) && forall c <- name[1..] :: IsShellStart(c) || '0' <= c <= '9'
  }

  method ValidateRunEnvironmentName(name: string) returns (r: Result<(), RunOptionsError>)
    ensures r.Ok? <==> IsShellName(name)
    ensures r.Err? ==> r.error.Environment?
  {
    if name == [] || !IsShellStart(name[0]) {
      return Err(Environment);
    }
    for i := 1 to |name|
      invariant forall c <- name[1..i] :: IsShellStart(c) || '0' <= c <= '9'
    {
      if !IsShellStart(name[i]) && !('0' <= name[i] <= '9') {
        assert name[i] in name[1..];
        return Err(Environment);
      }
      assert name[1..i + 1] == name[1..i] + [name[i]];
    }
    assert name[1..|name|] == name[1..];
    return Ok(());
  }

  lemma ShellNameIsVariableName(name: string)
    requires IsShellName(name)
    ensures IsVariableName(name)
  {
    assert name == [name[0]] + name[1..];
  }

  // ---- What the lists ask for -------------------------------------------

  /** The pairs and triples of a flat list. Values left over are ignored. */
  function Pairs(list: seq<string>): seq<(string, string)> {
    seq(|list| / 2, i requires 0 <= i < |list| / 2 => (list[2 * i], list[2 * i + 1]))
  }

  function Triples(list: seq<string>): seq<(string, string, string)> {
    seq(|list| / 3, i requires 0 <= i < |list| / 3 => (list[3 * i], list[3 * i + 1], list[3 * i + 2]))
  }

  /** The variables listed for a secret. */
  function Listed(pairs: seq<(string, string)>, secret: string): set<string> {
    set p | p in pairs && p.0 == secret :: p.1
  }

  /** Every pair names a selected secret and a legal variable, and none is repeated. */
  predicate PairsAreLegal(pairs: seq<(string, string)>, selected: set<string>) {
    && (forall p <- pairs :: p.0 in selected && IsShellName(p.1))
    && (forall i, j | 0 <= i < j < |pairs| :: pairs[i] != pairs[j])
  }

  /** A map that holds exactly the new names listed for a secret. */
  ghost predicate Renames(triples: seq<(string, string, string)>, secret: string, rename: map<string, string>) {
    && (forall t <- triples | t.0 == secret :: t.1 in rename && rename[t.1] == t.2)
    && (forall source <- rename :: (secret, source, rename[source]) in triples)
  }

  predicate TriplesAreLegal(triples: seq<(string, string, string)>, selected: set<string>) {
    && (forall t <- triples :: t.0 in selected && IsShellName(t.1) && IsShellName(t.2))
    && (forall i, j | 0 <= i < j < |triples| :: (triples[i].0, triples[i].1) != (triples[j].0, triples[j].1))
  }

  predicate StdinIsLegal(stdin: Option<(string, string)>, selected: set<string>) {
    stdin.Some? ==> stdin.value.0 in selected && IsShellName(stdin.value.1)
  }

  function OnlyListed(pairs: seq<(string, string)>, secret: string): Option<set<string>> {
    if Listed(pairs, secret) == {} then None else Some(Listed(pairs, secret))
  }

  predicate AreDistinct(names: seq<string>) {
    forall i, j | 0 <= i < j < |names| :: names[i] != names[j]
  }

  predicate ListsAreLegal(command: RunCommand) {
    var selected := set name | name in command.secrets;
    && AreDistinct(command.secrets)
    && PairsAreLegal(Pairs(command.onlyEnv), selected)
    && PairsAreLegal(Pairs(command.omitEnv), selected)
    && TriplesAreLegal(Triples(command.renameEnv), selected)
    && StdinIsLegal(command.stdin, selected)
  }

  /** The options of one secret that the lists describe. */
  ghost predicate DescribesOne(command: RunCommand, name: string, options: EnvironmentOptions) {
    && options.only == OnlyListed(Pairs(command.onlyEnv), name)
    && options.omit == Listed(Pairs(command.omitEnv), name)
    && Renames(Triples(command.renameEnv), name, options.rename)
    && options.stdin == if command.stdin.Some? && command.stdin.value.0 == name then Some(command.stdin.value.1)
                        else None
  }

  ghost predicate Describes(command: RunCommand, secrets: Secrets) {
    && secrets.Keys == (set name | name in command.secrets)
    && forall name <- secrets :: DescribesOne(command, name, secrets[name])
  }

  // ---- Building the options ---------------------------------------------

  method SelectSecrets(names: seq<string>) returns (r: Result<Secrets, RunOptionsError>)
    ensures r.Ok? <==> AreDistinct(names)
    ensures r.Ok? ==> r.value == map name | name in names :: DEFAULT
    ensures r.Err? ==> r.error.DuplicateSecret?
  {
    var secrets: Secrets := map[];
    for i := 0 to |names|
      invariant AreDistinct(names[..i])
      invariant secrets == map name | name in names[..i] :: DEFAULT
    {
      assert names[..i + 1] == names[..i] + [names[i]];
      if names[i] in secrets {
        return Err(DuplicateSecret(names[i]));
      }
      secrets := secrets[names[i] := DEFAULT];
    }
    assert names[..|names|] == names;
    return Ok(secrets);
  }

  lemma ListedStep(pairs: seq<(string, string)>, i: nat, name: string)
    requires i < |pairs|
    ensures Listed(pairs[..i + 1], name) ==
      Listed(pairs[..i], name) + if pairs[i].0 == name then {pairs[i].1} else {}
  {
    assert pairs[..i + 1] == pairs[..i] + [pairs[i]];
  }

  lemma PairsStep(pairs: seq<(string, string)>, i: nat, selected: set<string>)
    requires i < |pairs| && PairsAreLegal(pairs[..i], selected)
    ensures PairsAreLegal(pairs[..i + 1], selected) <==>
      IsShellName(pairs[i].1) && pairs[i].0 in selected && pairs[i].1 !in Listed(pairs[..i], pairs[i].0)
    ensures !PairsAreLegal(pairs[..i + 1], selected) ==> !PairsAreLegal(pairs, selected)
  {
    var (name, variable) := pairs[i];
    assert pairs[..i + 1] == pairs[..i] + [pairs[i]];
    if variable in Listed(pairs[..i], name) {
      assert (name, variable) in pairs[..i];
      var j :| 0 <= j < i && pairs[..i][j] == (name, variable);
      assert pairs[..i + 1][j] == pairs[..i + 1][i];
    }
    if PairsAreLegal(pairs, selected) {
      assert forall p <- pairs[..i + 1] :: p in pairs;
    }
  }

  /** The options of every secret after some pairs selected variables. */
  ghost predicate OnlyAdded(before: Secrets, pairs: seq<(string, string)>, after: Secrets) {
    && after.Keys == before.Keys
    && forall name <- before :: after[name] == before[name].(only := OnlyListed(pairs, name))
  }

  ghost predicate OmitAdded(before: Secrets, pairs: seq<(string, string)>, after: Secrets) {
    && after.Keys == before.Keys
    && forall name <- before :: after[name] == before[name].(omit := Listed(pairs, name))
  }

  lemma OnlyListedStep(pairs: seq<(string, string)>, i: nat, name: string)
    requires i < |pairs|
    ensures OnlyListed(pairs[..i + 1], name) ==
      if name == pairs[i].0 then Some(Listed(pairs[..i], name) + {pairs[i].1}) else OnlyListed(pairs[..i], name)
  {
    ListedStep(pairs, i, name);
    var before, after := Listed(pairs[..i], name), Listed(pairs[..i + 1], name);
    if name == pairs[i].0 {
      assert pairs[i].1 in after;
    } else {
      assert after == before;
    }
  }

  lemma OnlyStep(before: Secrets, pairs: seq<(string, string)>, i: nat, secrets: Secrets)
    requires forall name <- before :: before[name].only == None
    requires i < |pairs| && pairs[i].0 in before && OnlyAdded(before, pairs[..i], secrets)
    ensures var (name, variable) := pairs[i];
      var only := if secrets[name].only.Some? then secrets[name].only.value else {};
      OnlyAdded(before, pairs[..i + 1], secrets[name := secrets[name].(only := Some(only + {variable}))])
  {
    forall other | other in before && other != pairs[i].0
      ensures OnlyListed(pairs[..i + 1], other) == OnlyListed(pairs[..i], other)
    {
      OnlyListedStep(pairs, i, other);
    }
    OnlyListedStep(pairs, i, pairs[i].0);
  }

  lemma OmitStep(before: Secrets, pairs: seq<(string, string)>, i: nat, secrets: Secrets)
    requires i < |pairs| && pairs[i].0 in before && OmitAdded(before, pairs[..i], secrets)
    ensures var (name, variable) := pairs[i];
      OmitAdded(before, pairs[..i + 1], secrets[name := secrets[name].(omit := secrets[name].omit + {variable})])
  {
    forall other | other in before
      ensures Listed(pairs[..i + 1], other) ==
        Listed(pairs[..i], other) + if other == pairs[i].0 then {pairs[i].1} else {}
    {
      ListedStep(pairs, i, other);
    }
  }

  method AddOnly(before: Secrets, list: seq<string>) returns (r: Result<Secrets, RunOptionsError>)
    requires forall name <- before :: before[name].only == None
    ensures r.Ok? <==> PairsAreLegal(Pairs(list), before.Keys)
    ensures r.Ok? ==> OnlyAdded(before, Pairs(list), r.value)
    ensures r.Err? ==> r.error.Environment?
  {
    var pairs, secrets := Pairs(list), before;
    for i := 0 to |pairs|
      invariant PairsAreLegal(pairs[..i], before.Keys)
      invariant OnlyAdded(before, pairs[..i], secrets)
    {
      PairsStep(pairs, i, before.Keys);
      var (name, variable) := pairs[i];
      var _ :- ValidateRunEnvironmentName(variable);
      if name !in secrets {
        return Err(Environment);
      }
      var options := secrets[name];
      var only := if options.only.Some? then options.only.value else {};
      if variable in only {
        return Err(Environment);
      }
      OnlyStep(before, pairs, i, secrets);
      secrets := secrets[name := options.(only := Some(only + {variable}))];
    }
    assert pairs[..|pairs|] == pairs;
    return Ok(secrets);
  }

  method AddOmit(before: Secrets, list: seq<string>) returns (r: Result<Secrets, RunOptionsError>)
    requires forall name <- before :: before[name].omit == {}
    ensures r.Ok? <==> PairsAreLegal(Pairs(list), before.Keys)
    ensures r.Ok? ==> OmitAdded(before, Pairs(list), r.value)
    ensures r.Err? ==> r.error.Environment?
  {
    var pairs, secrets := Pairs(list), before;
    for i := 0 to |pairs|
      invariant PairsAreLegal(pairs[..i], before.Keys)
      invariant OmitAdded(before, pairs[..i], secrets)
    {
      PairsStep(pairs, i, before.Keys);
      var (name, variable) := pairs[i];
      var _ :- ValidateRunEnvironmentName(variable);
      if name !in secrets {
        return Err(Environment);
      }
      var options := secrets[name];
      if variable in options.omit {
        return Err(Environment);
      }
      OmitStep(before, pairs, i, secrets);
      secrets := secrets[name := options.(omit := options.omit + {variable})];
    }
    assert pairs[..|pairs|] == pairs;
    return Ok(secrets);
  }

  /** The new names of every secret after some triples renamed variables. */
  ghost predicate RenameAdded(before: Secrets, triples: seq<(string, string, string)>, after: Secrets) {
    && after.Keys == before.Keys
    && forall name <- before ::
         && after[name] == before[name].(rename := after[name].rename)
         && Renames(triples, name, after[name].rename)
  }

  lemma RenameStep(before: Secrets, triples: seq<(string, string, string)>, i: nat, secrets: Secrets)
    requires i < |triples| && triples[i].0 in before && RenameAdded(before, triples[..i], secrets)
    requires triples[i].1 !in secrets[triples[i].0].rename
    ensures var (name, variable, newVariable) := triples[i];
      RenameAdded(before, triples[..i + 1],
                  secrets[name := secrets[name].(rename := secrets[name].rename[variable := newVariable])])
  {
    var (name, variable, newVariable) := triples[i];
    assert triples[..i + 1] == triples[..i] + [triples[i]];
    forall other, source | other in before && source in secrets[other].rename
      ensures (other, source, secrets[other].rename[source]) in triples[..i + 1]
    {
      assert (other, source, secrets[other].rename[source]) in triples[..i];
    }
    assert (name, variable, newVariable) in triples[..i + 1];
  }

  lemma TriplesStep(triples: seq<(string, string, string)>, i: nat, selected: set<string>,
                    rename: map<string, string>)
    requires i < |triples| && TriplesAreLegal(triples[..i], selected)
    requires triples[i].0 in selected ==> Renames(triples[..i], triples[i].0, rename)
    ensures TriplesAreLegal(triples[..i + 1], selected) <==>
      && IsShellName(triples[i].1) && IsShellName(triples[i].2)
      && triples[i].0 in selected && triples[i].1 !in rename
    ensures !TriplesAreLegal(triples[..i + 1], selected) ==> !TriplesAreLegal(triples, selected)
  {
    var (name, variable, _) := triples[i];
    assert triples[..i + 1] == triples[..i] + [triples[i]];
    if name in selected && variable in rename {
      assert (name, variable, rename[variable]) in triples[..i];
      var j :| 0 <= j < i && triples[..i][j] == (name, variable, rename[variable]);
      assert triples[..i + 1][j] == triples[j] && triples[..i + 1][i] == triples[i];
    }
    if TriplesAreLegal(triples, selected) {
      assert forall t <- triples[..i + 1] :: t in triples;
    }
  }

  method AddRename(before: Secrets, list: seq<string>) returns (r: Result<Secrets, RunOptionsError>)
    requires forall name <- before :: before[name].rename == map[]
    ensures r.Ok? <==> TriplesAreLegal(Triples(list), before.Keys)
    ensures r.Ok? ==> RenameAdded(before, Triples(list), r.value)
    ensures r.Err? ==> r.error.Environment?
  {
    var triples, secrets := Triples(list), before;
    for i := 0 to |triples|
      invariant TriplesAreLegal(triples[..i], before.Keys)
      invariant RenameAdded(before, triples[..i], secrets)
    {
      var (name, variable, newVariable) := triples[i];
      TriplesStep(triples, i, before.Keys, if name in secrets then secrets[name].rename else map[]);
      var _ :- ValidateRunEnvironmentName(variable);
      var _ :- ValidateRunEnvironmentName(newVariable);
      if name !in secrets {
        return Err(Environment);
      }
      var options := secrets[name];
      if variable in options.rename {
        return Err(Environment);
      }
      RenameStep(before, triples, i, secrets);
      secrets := secrets[name := options.(rename := options.rename[variable := newVariable])];
    }
    assert triples[..|triples|] == triples;
    return Ok(secrets);
  }

  method SetStdin(before: Secrets, stdin: Option<(string, string)>) returns (r: Result<Secrets, RunOptionsError>)
    requires forall name <- before :: before[name].stdin == None
    ensures r.Ok? <==> StdinIsLegal(stdin, before.Keys)
    ensures r.Ok? ==>
      && r.value.Keys == before.Keys
      && forall name <- before :: r.value[name] == before[name].(stdin :=
           if stdin.Some? && stdin.value.0 == name then Some(stdin.value.1) else None)
    ensures r.Err? ==> r.error.Environment?
  {
    if stdin == None {
      return Ok(before);
    }
    var (name, variable) := stdin.value;
    var _ :- ValidateRunEnvironmentName(variable);
    if name !in before {
      return Err(Environment);
    }
    return Ok(before[name := before[name].(stdin := Some(variable))]);
  }

  method ValidateRunEnvironmentOptions(secrets: Secrets) returns (r: Result<(), RunOptionsError>)
    ensures r.Ok? <==> forall name <- secrets :: IsConsistent(secrets[name])
    ensures r.Err? ==> r.error.Environment?
  {
    var left := secrets.Keys;
    while left != {}
      invariant left <= secrets.Keys
      invariant forall name <- secrets.Keys - left :: IsConsistent(secrets[name])
      decreases |left|
    {
      var name :| name in left;
      left := left - {name};
      var consistent := Consistent(secrets[name]);
      if !consistent {
        return Err(Environment);
      }
    }
    return Ok(());
  }

  method Consistent(options: EnvironmentOptions) returns (consistent: bool)
    ensures consistent <==> IsConsistent(options)
  {
    if options.only.Some? && options.omit != {} {
      return false;
    }
    if options.only.Some? {
      var selected := AllIn(options.Used(), options.only.value);
      if !selected {
        return false;
      }
    }
    var usable := NoneIn(options.Used(), options.omit);
    if !usable {
      return false;
    }
    return options.stdin.Some? ==> options.stdin.value !in options.rename;
  }

  /** Accepts exactly the commands whose lists are legal and describe consistent options, and
      builds the options they describe. */
  method BuildOptions(command: RunCommand) returns (r: Result<Secrets, RunOptionsError>)
    ensures r.Ok? ==> IsAccepted(command, r.value)
    ensures r.Err? ==> forall secrets :: !IsAccepted(command, secrets)
    ensures r.Err? && r.error.DuplicateSecret? <==> !AreDistinct(command.secrets)
  {
    var secrets :- SelectSecrets(command.secrets);
    ghost var selected := secrets;
    secrets :- AddOnly(secrets, command.onlyEnv);
    ghost var withOnly := secrets;
    secrets :- AddOmit(secrets, command.omitEnv);
    ghost var withOmit := secrets;
    secrets :- AddRename(secrets, command.renameEnv);
    ghost var withRename := secrets;
    secrets :- SetStdin(secrets, command.stdin);
    PartsDescribe(command, selected, withOnly, withOmit, withRename, secrets);
    var valid := ValidateRunEnvironmentOptions(secrets);
    if valid.Err? {
      OnlyOneIsDescribed(command, secrets);
      return Err(valid.error);
    }
    return Ok(secrets);
  }

  ghost predicate IsAccepted(command: RunCommand, secrets: Secrets) {
    && ListsAreLegal(command)
    && Describes(command, secrets)
    && forall name <- secrets :: IsConsistent(secrets[name])
  }

  lemma PartsDescribe(command: RunCommand, selected: Secrets, withOnly: Secrets, withOmit: Secrets,
                      withRename: Secrets, secrets: Secrets)
    requires selected == map name | name in command.secrets :: DEFAULT
    requires OnlyAdded(selected, Pairs(command.onlyEnv), withOnly)
    requires OmitAdded(withOnly, Pairs(command.omitEnv), withOmit)
    requires RenameAdded(withOmit, Triples(command.renameEnv), withRename)
    requires secrets.Keys == withRename.Keys
    requires forall name <- withRename :: secrets[name] == withRename[name].(stdin :=
               if command.stdin.Some? && command.stdin.value.0 == name then Some(command.stdin.value.1) else None)
    ensures Describes(command, secrets)
  {
    assert selected.Keys == set name | name in command.secrets;
  }

  /** The lists describe one map of options. */
  lemma OnlyOneIsDescribed(command: RunCommand, secrets: Secrets)
    requires Describes(command, secrets)
    ensures forall others: Secrets | Describes(command, others) :: others == secrets
  {
    forall others: Secrets | Describes(command, others)
      ensures others == secrets
    {
      forall name | name in secrets
        ensures others[name] == secrets[name]
      {
        SameRename(Triples(command.renameEnv), name, others[name].rename, secrets[name].rename);
      }
    }
  }

  lemma SameRename(triples: seq<(string, string, string)>, name: string, a: map<string, string>,
                   b: map<string, string>)
    requires Renames(triples, name, a) && Renames(triples, name, b)
    ensures a == b
  {
    forall source | source in a || source in b
      ensures source in a && source in b && a[source] == b[source]
    {
      var t := if source in a then (name, source, a[source]) else (name, source, b[source]);
      assert t in triples;
    }
  }

  // ---- The command line implies the library -----------------------------

  lemma ListedIsLegal(pairs: seq<(string, string)>, selected: set<string>, secret: string)
    requires PairsAreLegal(pairs, selected)
    ensures forall variable <- Listed(pairs, secret) :: IsVariableName(variable)
  {
    forall variable | variable in Listed(pairs, secret)
      ensures IsVariableName(variable)
    {
      assert (secret, variable) in pairs;
      ShellNameIsVariableName(variable);
    }
  }

  lemma RenameIsLegal(triples: seq<(string, string, string)>, selected: set<string>, secret: string,
                      rename: map<string, string>)
    requires TriplesAreLegal(triples, selected) && Renames(triples, secret, rename)
    ensures forall source <- rename :: IsVariableName(source) && IsVariableName(rename[source])
  {
    forall source | source in rename
      ensures IsVariableName(source) && IsVariableName(rename[source])
    {
      assert (secret, source, rename[source]) in triples;
      ShellNameIsVariableName(source);
      ShellNameIsVariableName(rename[source]);
    }
  }

  lemma AcceptedOneIsLegal(command: RunCommand, secrets: Secrets, name: string)
    requires IsAccepted(command, secrets) && name in secrets
    ensures IsLegal(secrets[name])
  {
    var selected := set other | other in command.secrets;
    var options := secrets[name];
    ListedIsLegal(Pairs(command.onlyEnv), selected, name);
    ListedIsLegal(Pairs(command.omitEnv), selected, name);
    RenameIsLegal(Triples(command.renameEnv), selected, name, options.rename);
    if options.stdin.Some? {
      ShellNameIsVariableName(options.stdin.value);
    }
    forall variable | variable in options.Names()
      ensures IsVariableName(variable)
    {
    }
  }

  /** What the command line accepts, the library accepts, provided that at least one secret is
      requested and none has an empty name. */
  lemma AcceptedIsLegal(command: RunCommand, secrets: Secrets)
    requires IsAccepted(command, secrets)
    ensures AreLegal(secrets) <==> command.secrets != [] && "" !in command.secrets
  {
    forall name | name in secrets
      ensures IsLegal(secrets[name])
    {
      AcceptedOneIsLegal(command, secrets, name);
    }
    if command.secrets != [] {
      assert command.secrets[0] in secrets;
    }
    assert forall a | a in secrets && secrets[a].stdin.Some? :: a == command.stdin.value.0;
  }

  // ---- The lists, value by value ----------------------------------------

  /** The first two values of a list name a secret and a variable of it, and so on. */
  lemma ListedMeans(list: seq<string>, secret: string, variable: string)
    ensures variable in Listed(Pairs(list), secret) <==>
      exists i: nat | 2 * i + 1 < |list| :: list[2 * i] == secret && list[2 * i + 1] == variable
  {
    var pairs := Pairs(list);
    if variable in Listed(pairs, secret) {
      var p :| p in pairs && p.0 == secret && p.1 == variable;
      var i :| 0 <= i < |pairs| && pairs[i] == p;
      assert 2 * i + 1 < |list|;
    }
    forall i: nat | 2 * i + 1 < |list| && list[2 * i] == secret && list[2 * i + 1] == variable
      ensures variable in Listed(pairs, secret)
    {
      assert pairs[i] == (secret, variable);
    }
  }

  /** The options that a command describes for a secret, by the values of its lists: a selection
      only if there is one, and what is omitted and sent to standard input. */
  lemma DescribedMeans(command: RunCommand, name: string, options: EnvironmentOptions, variable: string)
    requires DescribesOne(command, name, options)
    ensures options.only.Some? <==>
      exists i: nat | 2 * i + 1 < |command.onlyEnv| :: command.onlyEnv[2 * i] == name
    ensures options.only.Some? ==>
      (variable in options.only.value <==>
        exists i: nat | 2 * i + 1 < |command.onlyEnv| ::
          command.onlyEnv[2 * i] == name && command.onlyEnv[2 * i + 1] == variable)
    ensures variable in options.omit <==>
      exists i: nat | 2 * i + 1 < |command.omitEnv| ::
        command.omitEnv[2 * i] == name && command.omitEnv[2 * i + 1] == variable
    ensures options.stdin == Some(variable) <==> command.stdin == Some((name, variable))
  {
    ListedMeans(command.onlyEnv, name, variable);
    ListedMeans(command.omitEnv, name, variable);
    SelectionMeans(command.onlyEnv, name);
  }

  /** The new names stand in the list in the order secret, variable, new name. */
  lemma RenamesMeans(list: seq<string>, name: string, rename: map<string, string>, i: nat)
    requires Renames(Triples(list), name, rename) && 3 * i + 2 < |list| && list[3 * i] == name
    ensures list[3 * i + 1] in rename && rename[list[3 * i + 1]] == list[3 * i + 2]
  {
    var triples := Triples(list);
    assert triples[i] == (name, list[3 * i + 1], list[3 * i + 2]) && triples[i] in triples;
  }

  lemma RenamesComeFrom(list: seq<string>, name: string, rename: map<string, string>, variable: string)
    returns (i: nat)
    requires Renames(Triples(list), name, rename) && variable in rename
    ensures 3 * i + 2 < |list|
    ensures list[3 * i] == name && list[3 * i + 1] == variable && list[3 * i + 2] == rename[variable]
  {
    var triples := Triples(list);
    assert (name, variable, rename[variable]) in triples;
    i :| 0 <= i < |triples| && triples[i] == (name, variable, rename[variable]);
  }

  lemma SelectionMeans(list: seq<string>, name: string)
    ensures Listed(Pairs(list), name) != {} <==> exists i: nat | 2 * i + 1 < |list| :: list[2 * i] == name
  {
    if Listed(Pairs(list), name) != {} {
      var variable :| variable in Listed(Pairs(list), name);
      ListedMeans(list, name, variable);
    }
    forall i: nat | 2 * i + 1 < |list| && list[2 * i] == name
      ensures Listed(Pairs(list), name) != {}
    {
      ListedMeans(list, name, list[2 * i + 1]);
    }
  }

  /** A shell name: ASCII letters, underscores and, but not first, digits. */
  lemma ShellNameMeans(name: string)
    ensures IsShellName(name) <==>
      && |name| > 0 && !('0' <= name[0] <= '9')
      && forall i | 0 <= i < |name| ::
           'A' <= name[i] <= 'Z' || 'a' <= name[i] <= 'z' || name[i] == '_' || '0' <= name[i] <= '9'
  {
    if name != [] {
      assert forall i | 0 < i < |name| :: name[i] == name[1..][i - 1] && name[i] in name[1..];
    }
  }
}
