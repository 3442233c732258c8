/** What an invocation may ask about the secrets it requests. */
module SecretOptions {
  import opened Wrappers

  /** Which variables of an environment secret are delivered, and where. */
  datatype EnvironmentOptions = EnvironmentOptions(
    only: Option<set<string>>,
    omit: set<string>,
    rename: map<string, string>,
    stdin: Option<string>)
  {
    predicate IsEmpty() {
      only == None && omit == {} && rename == map[] && stdin == None
    }

    /** The stored variables the options make use of. */
    function Used(): set<string> {
      rename.Keys + if stdin.Some? then {stdin.value} else {}
    }

    function Names(): set<string> {
      Used() + (set source <- rename :: rename[source]) + omit + if only.Some? then only.value else {}
    }
  }

  const DEFAULT := EnvironmentOptions(None, {}, map[], None)

  predicate IsVariableName(name: string) {
    name != [] && '=' !in name && '\0' !in name
  }

  /** A name that can stand before the equals sign of an environment entry. */
  lemma VariableNameMeans(name: string)
    ensures IsVariableName(name) <==>
      |name| > 0 && forall i | 0 <= i < |name| :: name[i] as int != 0x3d && name[i] as int != 0
  {
  }

  /** Options that select and use each stored variable in one way. */
  predicate IsConsistent(options: EnvironmentOptions) {
    && (options.only.Some? ==> options.omit == {} && options.Used() <= options.only.value)
    && (forall source <- options.omit :: source !in options.Used())
    && (options.stdin.Some? ==> options.stdin.value !in options.rename)
  }

  predicate IsLegal(options: EnvironmentOptions) {
    && IsConsistent(options)
    && (options.only.Some? ==> options.only.value != {})
    && forall name <- options.Names() :: IsVariableName(name)
  }

  /** Legal options, spelled out: a selection isn't empty and leaves nothing to omit; what is renamed
      or sent to standard input is selected, isn't omitted, and is used once; and all names can
      stand in an environment. */
  lemma LegalMeans(options: EnvironmentOptions)
    ensures IsLegal(options) <==>
      && (options.only.Some? ==> options.only.value != {} && options.omit == {})
      && (forall source <- options.rename :: source !in options.omit && options.stdin != Some(source))
      && (options.stdin.Some? ==> options.stdin.value !in options.omit)
      && (options.only.Some? ==> forall source <- options.rename :: source in options.only.value)
      && (options.only.Some? && options.stdin.Some? ==> options.stdin.value in options.only.value)
      && (options.only.Some? ==> forall name <- options.only.value :: IsVariableName(name))
      && (forall name <- options.omit :: IsVariableName(name))
      && (forall source <- options.rename :: IsVariableName(source) && IsVariableName(options.rename[source]))
      && (options.stdin.Some? ==> IsVariableName(options.stdin.value))
  {
    var names := options.Names();
    assert forall source <- options.rename :: source in names && options.rename[source] in names;
    assert forall name <- options.omit :: name in names;
    assert options.only.Some? ==> forall name <- options.only.value :: name in names;
    assert options.stdin.Some? ==> options.stdin.value in names;
    assert forall source <- options.rename :: source in options.Used();
    assert options.stdin.Some? ==> options.stdin.value in options.Used();
  }

  /** At most one variable of the whole invocation goes to standard input. */
  ghost predicate AtMostOneStdin(secrets: map<string, EnvironmentOptions>) {
    forall a, b | a in secrets && b in secrets && secrets[a].stdin.Some? && secrets[b].stdin.Some? :: a == b
  }

  ghost predicate AreLegal(secrets: map<string, EnvironmentOptions>) {
    && secrets != map[]
    && "" !in secrets
    && (forall name <- secrets :: IsLegal(secrets[name]))
    && AtMostOneStdin(secrets)
  }

  datatype InvalidInput = InvalidInput

  method ValidateEnvironmentName(name: string) returns (r: Result<(), InvalidInput>)
    ensures r.Ok? <==> IsVariableName(name)
  {
    if name == [] || '=' in name || '\0' in name {
      return Err(InvalidInput);
    }
    return Ok(());
  }

  method ValidateNames(names: set<string>) returns (r: Result<(), InvalidInput>)
    ensures r.Ok? <==> forall name <- names :: IsVariableName(name)
  {
    var left := names;
    while left != {}
      invariant left <= names
      invariant forall name <- names - left :: IsVariableName(name)
      decreases |left|
    {
      var name :| name in left;
      left := left - {name};
      var _ :- ValidateEnvironmentName(name);
    }
    return Ok(());
  }

  /** Every used variable passes a membership test. */
  method AllIn(used: set<string>, selected: set<string>) returns (all: bool)
    ensures all <==> used <= selected
  {
    var left := used;
    while left != {}
      invariant left <= used && used - left <= selected
      decreases |left|
    {
      var source :| source in left;
      left := left - {source};
      if source !in selected {
        return false;
      }
    }
    return true;
  }

  method NoneIn(used: set<string>, omitted: set<string>) returns (none: bool)
    ensures none <==> forall source <- omitted :: source !in used
  {
    var left := used;
    while left != {}
      invariant left <= used && forall source <- used - left :: source !in omitted
      decreases |left|
    {
      var source :| source in left;
      left := left - {source};
      if source in omitted {
        return false;
      }
    }
    return true;
  }

  method ValidateOptions(options: EnvironmentOptions) returns (r: Result<(), InvalidInput>)
    ensures r.Ok? <==> IsLegal(options)
  {
    if options.only.Some? && options.only.value == {} {
      return Err(InvalidInput);
    }
    if options.only.Some? && options.omit != {} {
      return Err(InvalidInput);
    }
    var _ :- ValidateNames(options.Names());
    if options.only.Some? {
      var selected := AllIn(options.Used(), options.only.value);
      if !selected {
        return Err(InvalidInput);
      }
    }
    var usable := NoneIn(options.Used(), options.omit);
    if !usable {
      return Err(InvalidInput);
    }
    if options.stdin.Some? && options.stdin.value in options.rename {
      return Err(InvalidInput);
    }
    return Ok(());
  }

  /** The secrets checked so far are legal, and `owner` is the one that uses standard input. */
  ghost predicate Checked(secrets: map<string, EnvironmentOptions>, done: set<string>, owner: Option<string>) {
    && done <= secrets.Keys
    && "" !in done
    && (forall name <- done :: IsLegal(secrets[name]))
    && (forall name <- done | secrets[name].stdin.Some? :: owner == Some(name))
    && (owner.Some? ==> owner.value in done && secrets[owner.value].stdin.Some?)
  }

  lemma CheckedOneMore(secrets: map<string, EnvironmentOptions>, done: set<string>, owner: Option<string>,
                       name: string)
    requires Checked(secrets, done, owner)
    requires name in secrets && name != "" && IsLegal(secrets[name])
    requires secrets[name].stdin.Some? ==> owner == None
    ensures Checked(secrets, done + {name}, if secrets[name].stdin.Some? then Some(name) else owner)
  {
  }

  lemma AllChecked(secrets: map<string, EnvironmentOptions>, owner: Option<string>)
    requires secrets != map[] && Checked(secrets, secrets.Keys, owner)
    ensures AreLegal(secrets)
  {
  }

  lemma NotLegal(secrets: map<string, EnvironmentOptions>, name: string, owner: Option<string>)
    requires name in secrets
    requires
      || name == ""
      || !IsLegal(secrets[name])
      || (secrets[name].stdin.Some? && owner.Some? && owner.value != name && owner.value in secrets
          && secrets[owner.value].stdin.Some?)
    ensures !AreLegal(secrets)
  {
  }

  /** Accepts exactly the legal options. */
  method ValidateSecretOptions(secrets: map<string, EnvironmentOptions>) returns (r: Result<(), InvalidInput>)
    ensures r.Ok? <==> AreLegal(secrets)
  {
    if secrets == map[] {
      return Err(InvalidInput);
    }
    var hasStdin := false;
    var left := secrets.Keys;
    ghost var owner: Option<string> := None;
    while left != {}
      invariant left <= secrets.Keys
      invariant Checked(secrets, secrets.Keys - left, owner)
      invariant hasStdin == owner.Some?
      decreases |left|
    {
      var name :| name in left;
      var legal := ValidateOptions(secrets[name]);
      if name == "" || legal.Err? || (secrets[name].stdin.Some? && hasStdin) {
        NotLegal(secrets, name, owner);
        return Err(InvalidInput);
      }
      CheckedOneMore(secrets, secrets.Keys - left, owner, name);
      if secrets[name].stdin.Some? {
        hasStdin := true;
        owner := Some(name);
      }
      assert secrets.Keys - (left - {name}) == secrets.Keys - left + {name};
      left := left - {name};
    }
    assert secrets.Keys - left == secrets.Keys;
    AllChecked(secrets, owner);
    return Ok(());
  }
}
