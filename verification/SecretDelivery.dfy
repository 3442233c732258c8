/** From the secrets a device approved to the environment and standard input of a command: a
    pass over the secrets in any order is a relation between stored and delivered variables. */
module SecretDelivery {
  import opened Wrappers
  import opened SecretOptions

  datatype ApprovedSecret =
    | Environment(variables: map<string, string>)
    | Ssh(publicKey: string)

  datatype SshSecretUse = SshSecretUse(name: string, publicKey: string)

  datatype Output = Output(environment: map<string, string>, stdin: Option<string>, ssh: Option<SshSecretUse>)

  datatype BadResponse = BadResponse

  // ---- The relation -----------------------------------------------------

  function FinalName(options: EnvironmentOptions, source: string): string {
    if source in options.rename then options.rename[source] else source
  }

  /** The names and values that some variables of one secret deliver to the environment. */
  ghost function Delivered(variables: map<string, string>, options: EnvironmentOptions, sources: set<string>)
    : set<(string, string)>
  {
    set source | source in sources && source in variables && options.stdin != Some(source) ::
      (FinalName(options, source), variables[source])
  }

  predicate Defined(secrets: map<string, ApprovedSecret>, requested: map<string, EnvironmentOptions>,
                    names: set<string>) {
    names <= secrets.Keys && names <= requested.Keys
  }

  ghost function DeliveredBy(secret: ApprovedSecret, options: EnvironmentOptions): set<(string, string)> {
    if secret.Environment? then Delivered(secret.variables, options, secret.variables.Keys) else {}
  }

  /** What some of the secrets deliver together. */
  ghost function AllDelivered(secrets: map<string, ApprovedSecret>, requested: map<string, EnvironmentOptions>,
                              names: set<string>): set<(string, string)>
    requires Defined(secrets, requested, names)
  {
    set name, pair | name in names && pair in DeliveredBy(secrets[name], requested[name]) :: pair
  }

  /** No name is delivered with two values. */
  ghost predicate IsFunctional(pairs: set<(string, string)>) {
    forall p, q | p in pairs && q in pairs && p.0 == q.0 :: p.1 == q.1
  }

  /** The map that is a set of pairs. */
  ghost predicate IsGraph(m: map<string, string>, pairs: set<(string, string)>) {
    && (forall name <- m :: (name, m[name]) in pairs)
    && (forall p <- pairs :: p.0 in m && m[p.0] == p.1)
  }

  // ---- One secret -------------------------------------------------------

  /** Returned variables are the selected ones, none is omitted, and all that are used are there. */
  predicate Obeys(variables: map<string, string>, options: EnvironmentOptions) {
    && (options.only.Some? ==> variables.Keys == options.only.value)
    && (forall source <- options.omit :: source !in variables)
    && options.Used() <= variables.Keys
  }

  method ValidateReturnedVariables(variables: map<string, string>, options: EnvironmentOptions)
    returns (r: Result<(), BadResponse>)
    ensures r.Ok? <==> Obeys(variables, options)
  {
    if options.only.Some? && variables.Keys != options.only.value {
      return Err(BadResponse);
    }
    var usable := NoneIn(variables.Keys, options.omit);
    if !usable {
      return Err(BadResponse);
    }
    var present := AllIn(options.Used(), variables.Keys);
    if !present {
      return Err(BadResponse);
    }
    return Ok(());
  }

  /** The environment is what was delivered before and what some variables of one secret add. */
  ghost predicate Holds(environment: map<string, string>, before: set<(string, string)>,
                        variables: map<string, string>, options: EnvironmentOptions, sources: set<string>) {
    IsGraph(environment, before + Delivered(variables, options, sources))
  }

  lemma DeliverOneMore(variables: map<string, string>, options: EnvironmentOptions, sources: set<string>,
                       source: string)
    requires source in variables
    ensures Delivered(variables, options, sources + {source}) ==
      Delivered(variables, options, sources)
      + if options.stdin == Some(source) then {} else {(FinalName(options, source), variables[source])}
  {
  }

  lemma SkipsOne(environment: map<string, string>, before: set<(string, string)>, variables: map<string, string>,
                 options: EnvironmentOptions, sources: set<string>, source: string)
    requires Holds(environment, before, variables, options, sources)
    requires source in variables && options.stdin == Some(source)
    ensures Holds(environment, before, variables, options, sources + {source})
  {
    DeliverOneMore(variables, options, sources, source);
  }

  lemma AddsOne(environment: map<string, string>, before: set<(string, string)>, variables: map<string, string>,
                options: EnvironmentOptions, sources: set<string>, source: string)
    requires Holds(environment, before, variables, options, sources)
    requires source in variables && options.stdin != Some(source)
    requires var name := FinalName(options, source);
      name in environment ==> environment[name] == variables[source]
    ensures Holds(environment[FinalName(options, source) := variables[source]],
                  before, variables, options, sources + {source})
  {
    DeliverOneMore(variables, options, sources, source);
  }

  lemma Conflicts(environment: map<string, string>, before: set<(string, string)>, variables: map<string, string>,
                  options: EnvironmentOptions, sources: set<string>, source: string)
    requires Holds(environment, before, variables, options, sources)
    requires source in variables && options.stdin != Some(source)
    requires var name := FinalName(options, source);
      name in environment && environment[name] != variables[source]
    ensures !IsFunctional(before + Delivered(variables, options, variables.Keys))
  {
    var name := FinalName(options, source);
    var all := before + Delivered(variables, options, variables.Keys);
    assert (name, environment[name]) in all;
    assert (name, variables[source]) in all;
  }

  /** Adds the variables of one secret to the environment, in any order. */
  method AddVariables(variables: map<string, string>, options: EnvironmentOptions, before: map<string, string>,
                      stdinBefore: Option<string>, ghost pairs: set<(string, string)>)
    returns (r: Result<(map<string, string>, Option<string>), BadResponse>)
    requires IsGraph(before, pairs)
    ensures r.Ok? ==>
      && IsGraph(r.value.0, pairs + Delivered(variables, options, variables.Keys))
      && r.value.1 == if options.stdin.Some? && options.stdin.value in variables
                      then Some(variables[options.stdin.value]) else stdinBefore
    ensures r.Err? ==> !IsFunctional(pairs + Delivered(variables, options, variables.Keys))
  {
    var environment, stdin := before, stdinBefore;
    var left := variables.Keys;
    ghost var done: set<string> := {};
    while left != {}
      invariant left <= variables.Keys && done == variables.Keys - left
      invariant Holds(environment, pairs, variables, options, done)
      invariant stdin == if options.stdin.Some? && options.stdin.value in done
                         then Some(variables[options.stdin.value]) else stdinBefore
      decreases |left|
    {
      var source :| source in left;
      left := left - {source};
      if options.stdin == Some(source) {
        SkipsOne(environment, pairs, variables, options, done, source);
        stdin := Some(variables[source]);
      } else {
        var finalName := FinalName(options, source);
        if finalName in environment && environment[finalName] != variables[source] {
          Conflicts(environment, pairs, variables, options, done, source);
          return Err(BadResponse);
        }
        AddsOne(environment, pairs, variables, options, done, source);
        environment := environment[finalName := variables[source]];
      }
      done := done + {source};
    }
    assert done == variables.Keys;
    return Ok((environment, stdin));
  }

  // ---- The whole response -----------------------------------------------

  /** A returned secret obeys its options. An SSH secret has none, and has a key. */
  predicate Fits(secret: ApprovedSecret, options: EnvironmentOptions) {
    match secret
    case Environment(variables) => Obeys(variables, options)
    case Ssh(publicKey) => options.IsEmpty() && publicKey != []
  }

  /** The value that a secret sends to standard input. */
  function ToStdin(secret: ApprovedSecret, options: EnvironmentOptions): Option<string> {
    if secret.Environment? && options.stdin.Some? && options.stdin.value in secret.variables
    then Some(secret.variables[options.stdin.value]) else None
  }

  ghost predicate AtMostOneSsh(secrets: map<string, ApprovedSecret>) {
    forall a, b | a in secrets && b in secrets && secrets[a].Ssh? && secrets[b].Ssh? :: a == b
  }

  /** The responses that are accepted. */
  ghost predicate IsAcceptable(secrets: map<string, ApprovedSecret>, requested: map<string, EnvironmentOptions>) {
    && secrets.Keys == requested.Keys
    && (forall name <- secrets :: Fits(secrets[name], requested[name]))
    && AtMostOneSsh(secrets)
    && IsFunctional(AllDelivered(secrets, requested, secrets.Keys))
  }

  ghost predicate DeliversSsh(secrets: map<string, ApprovedSecret>, names: set<string>, ssh: Option<SshSecretUse>)
    requires names <= secrets.Keys
  {
    && (forall name <- names | secrets[name].Ssh? :: ssh == Some(SshSecretUse(name, secrets[name].publicKey)))
    && (ssh.Some? ==> ssh.value.name in names && secrets[ssh.value.name] == Ssh(ssh.value.publicKey))
  }

  ghost predicate DeliversStdin(secrets: map<string, ApprovedSecret>, requested: map<string, EnvironmentOptions>,
                                names: set<string>, stdin: Option<string>)
    requires Defined(secrets, requested, names)
  {
    && (forall name <- names | ToStdin(secrets[name], requested[name]).Some? :: stdin.Some?)
    && (stdin.Some? ==> exists name <- names :: ToStdin(secrets[name], requested[name]) == stdin)
  }

  /** What a part of the secrets delivers, whatever the order they were taken in. */
  ghost predicate DeliversSome(secrets: map<string, ApprovedSecret>, requested: map<string, EnvironmentOptions>,
                               names: set<string>, output: Output)
    requires Defined(secrets, requested, names)
  {
    && IsGraph(output.environment, AllDelivered(secrets, requested, names))
    && DeliversSsh(secrets, names, output.ssh)
    && DeliversStdin(secrets, requested, names, output.stdin)
  }

  ghost predicate IsDelivery(secrets: map<string, ApprovedSecret>, requested: map<string, EnvironmentOptions>,
                             output: Output)
    requires secrets.Keys == requested.Keys
  {
    DeliversSome(secrets, requested, secrets.Keys, output)
  }

  /** Adds one secret to an output. */
  method DeliverOne(name: string, secret: ApprovedSecret, options: EnvironmentOptions, before: Output,
                    ghost pairs: set<(string, string)>)
    returns (r: Result<Output, BadResponse>)
    requires IsGraph(before.environment, pairs)
    ensures r.Ok? ==>
      && Fits(secret, options) && (secret.Ssh? ==> before.ssh == None)
      && IsGraph(r.value.environment, pairs + DeliveredBy(secret, options))
      && r.value.ssh == (if secret.Ssh? then Some(SshSecretUse(name, secret.publicKey)) else before.ssh)
      && r.value.stdin == (if ToStdin(secret, options).Some? then ToStdin(secret, options) else before.stdin)
    ensures r.Err? ==>
      || !Fits(secret, options) || (secret.Ssh? && before.ssh.Some?)
      || !IsFunctional(pairs + DeliveredBy(secret, options))
  {
    match secret {
      case Environment(variables) =>
        var _ :- ValidateReturnedVariables(variables, options);
        var added :- AddVariables(variables, options, before.environment, before.stdin, pairs);
        r := Ok(Output(added.0, added.1, before.ssh));
      case Ssh(publicKey) =>
        if !options.IsEmpty() || publicKey == [] || before.ssh.Some? {
          return Err(BadResponse);
        }
        assert pairs + {} == pairs;
        r := Ok(before.(ssh := Some(SshSecretUse(name, publicKey))));
    }
  }

  lemma AllDeliveredStep(secrets: map<string, ApprovedSecret>, requested: map<string, EnvironmentOptions>,
                         names: set<string>, name: string)
    requires Defined(secrets, requested, names + {name})
    ensures AllDelivered(secrets, requested, names + {name}) ==
      AllDelivered(secrets, requested, names) + DeliveredBy(secrets[name], requested[name])
  {
  }

  lemma DeliversOneMore(secrets: map<string, ApprovedSecret>, requested: map<string, EnvironmentOptions>,
                        names: set<string>, before: Output, name: string, after: Output)
    requires Defined(secrets, requested, names + {name}) && DeliversSome(secrets, requested, names, before)
    requires var secret, options := secrets[name], requested[name];
      && (secret.Ssh? ==> before.ssh == None)
      && IsGraph(after.environment, AllDelivered(secrets, requested, names) + DeliveredBy(secret, options))
      && after.ssh == (if secret.Ssh? then Some(SshSecretUse(name, secret.publicKey)) else before.ssh)
      && after.stdin == (if ToStdin(secret, options).Some? then ToStdin(secret, options) else before.stdin)
    ensures DeliversSome(secrets, requested, names + {name}, after)
  {
    AllDeliveredStep(secrets, requested, names, name);
    StdinStep(secrets, requested, names, before.stdin, name);
    SshStep(secrets, names, before.ssh, name);
  }

  lemma SshStep(secrets: map<string, ApprovedSecret>, names: set<string>, before: Option<SshSecretUse>, name: string)
    requires names + {name} <= secrets.Keys && DeliversSsh(secrets, names, before)
    requires secrets[name].Ssh? ==> before == None
    ensures var secret := secrets[name];
      DeliversSsh(secrets, names + {name},
                  if secret.Ssh? then Some(SshSecretUse(name, secret.publicKey)) else before)
  {
  }

  lemma StdinStep(secrets: map<string, ApprovedSecret>, requested: map<string, EnvironmentOptions>,
                  names: set<string>, before: Option<string>, name: string)
    requires Defined(secrets, requested, names + {name}) && DeliversStdin(secrets, requested, names, before)
    ensures var sent := ToStdin(secrets[name], requested[name]);
      DeliversStdin(secrets, requested, names + {name}, if sent.Some? then sent else before)
  {
    if ToStdin(secrets[name], requested[name]).Some? {
      assert name in names + {name};
    } else if before.Some? {
      var other :| other in names && ToStdin(secrets[other], requested[other]) == before;
      assert other in names + {name};
    }
  }

  /** A secret that can't be added to those before it makes the response unacceptable. */
  lemma Unacceptable(secrets: map<string, ApprovedSecret>, requested: map<string, EnvironmentOptions>,
                     names: set<string>, before: Output, name: string)
    requires secrets.Keys == requested.Keys && names <= secrets.Keys && name in secrets && name !in names
    requires DeliversSome(secrets, requested, names, before)
    requires
      || !Fits(secrets[name], requested[name]) || (secrets[name].Ssh? && before.ssh.Some?)
      || !IsFunctional(AllDelivered(secrets, requested, names) + DeliveredBy(secrets[name], requested[name]))
    ensures !IsAcceptable(secrets, requested)
  {
    AllDeliveredStep(secrets, requested, names, name);
    assert AllDelivered(secrets, requested, names + {name}) <= AllDelivered(secrets, requested, secrets.Keys);
  }

  /** What has been accepted so far. */
  ghost predicate AcceptedSome(secrets: map<string, ApprovedSecret>, requested: map<string, EnvironmentOptions>,
                               names: set<string>, output: Output)
    requires Defined(secrets, requested, names)
  {
    && DeliversSome(secrets, requested, names, output)
    && (forall name <- names :: Fits(secrets[name], requested[name]))
  }

  lemma AcceptedAll(secrets: map<string, ApprovedSecret>, requested: map<string, EnvironmentOptions>, output: Output)
    requires secrets.Keys == requested.Keys && AcceptedSome(secrets, requested, secrets.Keys, output)
    ensures IsAcceptable(secrets, requested)
  {
  }

  /** Succeeds exactly on acceptable responses, with exactly what the relation delivers. */
  method Deliver(secrets: map<string, ApprovedSecret>, requested: map<string, EnvironmentOptions>)
    returns (r: Result<Output, BadResponse>)
    ensures r.Ok? <==> IsAcceptable(secrets, requested)
    ensures r.Ok? ==> IsDelivery(secrets, requested, r.value)
  {
    if secrets.Keys != requested.Keys {
      return Err(BadResponse);
    }
    var output := Output(map[], None, None);
    var left := secrets.Keys;
    ghost var done: set<string> := {};
    while left != {}
      invariant left <= secrets.Keys && done == secrets.Keys - left
      invariant AcceptedSome(secrets, requested, done, output)
      decreases |left|
    {
      var name :| name in left;
      left := left - {name};
      var added := DeliverOne(name, secrets[name], requested[name], output,
                              AllDelivered(secrets, requested, done));
      if added.Err? {
        Unacceptable(secrets, requested, done, output, name);
        return Err(BadResponse);
      }
      DeliversOneMore(secrets, requested, done, output, name, added.value);
      output := added.value;
      done := done + {name};
    }
    assert done == secrets.Keys;
    AcceptedAll(secrets, requested, output);
    return Ok(output);
  }

  // ---- What it means for the command ------------------------------------

  /** A returned variable goes to the environment under this name: its new one if it was to be
      renamed, and its own otherwise. What is sent to standard input goes nowhere else. */
  predicate GoesTo(options: EnvironmentOptions, source: string, finalName: string) {
    && options.stdin != Some(source)
    && (source in options.rename ==> finalName == options.rename[source])
    && (source !in options.rename ==> finalName == source)
  }

  lemma GoesToFinalName(options: EnvironmentOptions, source: string, finalName: string)
    ensures GoesTo(options, source, finalName) <==>
      options.stdin != Some(source) && finalName == FinalName(options, source)
  {
  }

  /** Every variable of an environment secret goes to one place: to standard input, to its new
      name if it was to be renamed, or to its own name. */
  lemma EveryVariableIsRouted(secrets: map<string, ApprovedSecret>, requested: map<string, EnvironmentOptions>,
                              output: Output, name: string, source: string)
    requires IsAcceptable(secrets, requested) && IsDelivery(secrets, requested, output)
    requires AtMostOneStdin(requested)
    requires name in secrets && secrets[name].Environment? && source in secrets[name].variables
    ensures var options, value := requested[name], secrets[name].variables[source];
      if options.stdin == Some(source) then output.stdin == Some(value)
      else if source in options.rename then
        options.rename[source] in output.environment && output.environment[options.rename[source]] == value
      else source in output.environment && output.environment[source] == value
  {
    var options, value := requested[name], secrets[name].variables[source];
    if options.stdin == Some(source) {
      assert ToStdin(secrets[name], options) == Some(value);
      var other :| other in secrets && ToStdin(secrets[other], requested[other]) == output.stdin;
      assert other == name;
    } else {
      var pair := (FinalName(options, source), value);
      assert pair in DeliveredBy(secrets[name], options);
      assert pair in AllDelivered(secrets, requested, secrets.Keys);
    }
  }

  /** Whatever is delivered is a returned variable under its new name or, if it wasn't to be
      renamed, under its own. */
  lemma NothingElseArrives(secrets: map<string, ApprovedSecret>, requested: map<string, EnvironmentOptions>,
                           output: Output, finalName: string)
    requires secrets.Keys == requested.Keys && IsDelivery(secrets, requested, output)
    requires finalName in output.environment
    ensures exists name, source ::
      && name in secrets && secrets[name].Environment? && source in secrets[name].variables
      && GoesTo(requested[name], source, finalName)
      && secrets[name].variables[source] == output.environment[finalName]
  {
    var pair := (finalName, output.environment[finalName]);
    assert pair in AllDelivered(secrets, requested, secrets.Keys);
    var name, source := Origin(secrets, requested, pair);
  }

  /** In an accepted response each environment secret returns what was asked for: exactly the
      selected variables, none that was to be omitted, and all that are renamed or sent to
      standard input, which therefore arrive. */
  lemma SelectionIsKept(secrets: map<string, ApprovedSecret>, requested: map<string, EnvironmentOptions>, name: string)
    requires IsAcceptable(secrets, requested) && name in secrets && secrets[name].Environment?
    ensures var options, variables := requested[name], secrets[name].variables;
      && (options.only.Some? ==> forall source :: source in variables <==> source in options.only.value)
      && (forall source <- options.omit :: source !in variables)
      && (forall source <- options.rename :: source in variables)
      && (options.stdin.Some? ==> options.stdin.value in variables)
  {
    assert Fits(secrets[name], requested[name]);
  }

  /** The SSH key that is delivered is that of the one SSH secret, for which no variables can be
      asked for. */
  lemma SshIsDelivered(secrets: map<string, ApprovedSecret>, requested: map<string, EnvironmentOptions>,
                       output: Output, name: string)
    requires IsAcceptable(secrets, requested) && IsDelivery(secrets, requested, output)
    requires name in secrets
    ensures secrets[name].Ssh? ==>
      && output.ssh == Some(SshSecretUse(name, secrets[name].publicKey)) && secrets[name].publicKey != ""
      && requested[name] == EnvironmentOptions(None, {}, map[], None)
    ensures output.ssh.Some? ==>
      output.ssh.value.name in secrets && secrets[output.ssh.value.name] == Ssh(output.ssh.value.publicKey)
  {
    assert Fits(secrets[name], requested[name]);
  }

  /** Two variables that go to one name have one value. */
  lemma ConflictsAreRefused(secrets: map<string, ApprovedSecret>, requested: map<string, EnvironmentOptions>,
                            a: string, source: string, b: string, other: string, finalName: string)
    requires IsAcceptable(secrets, requested) && a in secrets && b in secrets
    requires secrets[a].Environment? && source in secrets[a].variables && GoesTo(requested[a], source, finalName)
    requires secrets[b].Environment? && other in secrets[b].variables && GoesTo(requested[b], other, finalName)
    ensures secrets[a].variables[source] == secrets[b].variables[other]
  {
    GoesToFinalName(requested[a], source, finalName);
    GoesToFinalName(requested[b], other, finalName);
    var p, q := (finalName, secrets[a].variables[source]), (finalName, secrets[b].variables[other]);
    assert p in DeliveredBy(secrets[a], requested[a]) && q in DeliveredBy(secrets[b], requested[b]);
    assert p in AllDelivered(secrets, requested, secrets.Keys) && q in AllDelivered(secrets, requested, secrets.Keys);
  }

  /** A response is refused for nothing else: secrets that weren't asked for or are missing, a
      selection that isn't kept, an SSH secret that was asked for variables or has no key, two of
      them, or two values for one name. */
  lemma NothingElseIsRefused(secrets: map<string, ApprovedSecret>, requested: map<string, EnvironmentOptions>)
    requires secrets.Keys == requested.Keys
    requires forall name <- secrets | secrets[name].Environment? ::
      && (requested[name].only.Some? ==> secrets[name].variables.Keys == requested[name].only.value)
      && (forall source <- requested[name].omit :: source !in secrets[name].variables)
      && (forall source <- requested[name].rename :: source in secrets[name].variables)
      && (requested[name].stdin.Some? ==> requested[name].stdin.value in secrets[name].variables)
    requires forall name <- secrets | secrets[name].Ssh? ::
      secrets[name].publicKey != "" && requested[name] == EnvironmentOptions(None, {}, map[], None)
    requires forall a, b | a in secrets && b in secrets && secrets[a].Ssh? && secrets[b].Ssh? :: a == b
    requires forall a, b, source, other, finalName ::
      && a in secrets && secrets[a].Environment? && source in secrets[a].variables
      && GoesTo(requested[a], source, finalName)
      && b in secrets && secrets[b].Environment? && other in secrets[b].variables
      && GoesTo(requested[b], other, finalName)
      ==> secrets[a].variables[source] == secrets[b].variables[other]
    ensures IsAcceptable(secrets, requested)
  {
    var pairs := AllDelivered(secrets, requested, secrets.Keys);
    forall p, q | p in pairs && q in pairs && p.0 == q.0
      ensures p.1 == q.1
    {
      var a, source := Origin(secrets, requested, p);
      var b, other := Origin(secrets, requested, q);
    }
  }

  /** Where a delivered pair comes from. */
  lemma Origin(secrets: map<string, ApprovedSecret>, requested: map<string, EnvironmentOptions>, pair: (string, string))
    returns (name: string, source: string)
    requires secrets.Keys == requested.Keys && pair in AllDelivered(secrets, requested, secrets.Keys)
    ensures name in secrets && secrets[name].Environment? && source in secrets[name].variables
    ensures GoesTo(requested[name], source, pair.0) && secrets[name].variables[source] == pair.1
  {
    name :| name in secrets && pair in DeliveredBy(secrets[name], requested[name]);
    var variables := secrets[name].variables;
    source :| source in variables && requested[name].stdin != Some(source)
      && (FinalName(requested[name], source), variables[source]) == pair;
    GoesToFinalName(requested[name], source, pair.0);
  }

  /** For validated options the order of the pass doesn't matter: there is one delivery. */
  lemma DeliveryIsUnique(secrets: map<string, ApprovedSecret>, requested: map<string, EnvironmentOptions>,
                         a: Output, b: Output)
    requires IsAcceptable(secrets, requested) && AtMostOneStdin(requested)
    requires IsDelivery(secrets, requested, a) && IsDelivery(secrets, requested, b)
    ensures a == b
  {
    var pairs := AllDelivered(secrets, requested, secrets.Keys);
    SameGraph(a.environment, b.environment, pairs);
    if a.stdin.Some? {
      var name :| name in secrets && ToStdin(secrets[name], requested[name]) == a.stdin;
      assert b.stdin.Some?;
      var other :| other in secrets && ToStdin(secrets[other], requested[other]) == b.stdin;
      assert name == other;
    }
  }

  lemma SameGraph(m: map<string, string>, n: map<string, string>, pairs: set<(string, string)>)
    requires IsGraph(m, pairs) && IsGraph(n, pairs)
    ensures m == n
  {
    forall name | name in m || name in n
      ensures name in m && name in n && m[name] == n[name]
    {
      var pair := if name in m then (name, m[name]) else (name, n[name]);
      assert pair in pairs;
    }
  }
}
