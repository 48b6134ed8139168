/** The command line the generated-work broker hands to the issue tracker. */
module GeneratedArguments {
  import opened Results

  const FORBIDDEN := [
    "--actor", "--external-ref", "--db", "--no-db", "--no-auto-flush", "--no-auto-import", "--dry-run", "--silent"]

  predicate TakesValue(argument: string) {
    argument in ["-p", "--priority", "-t", "--type", "-l", "--labels", "-d", "--description", "--body", "--parent", "-e", "--estimate"]
  }

  /** The argument is a flag only the broker may set, alone or with `=value`. */
  predicate IsControl(argument: string) {
    exists i :: 0 <= i < |FORBIDDEN| && (argument == FORBIDDEN[i] || FORBIDDEN[i] + "=" <= argument)
  }

  predicate AnyControl(arguments: seq<string>) {
    exists argument :: argument in arguments && IsControl(argument)
  }

  predicate StartsWithDash(argument: string) {
    argument != "" && argument[0] == '-'
  }

  lemma ControlLooks(argument: string)
    requires IsControl(argument)
    ensures StartsWithDash(argument)
    ensures 2 < |argument| && argument[2] in {'a', 'e', 'd', 'n', 's'}
  {
    var i :| 0 <= i < |FORBIDDEN| && (argument == FORBIDDEN[i] || FORBIDDEN[i] + "=" <= argument);
    var flag := FORBIDDEN[i];
    assert flag[0] == '-' && flag[2] in {'a', 'e', 'd', 'n', 's'};
    assert argument[0] == flag[0] && argument[2] == flag[2];
  }

  // ----- quick capture -----

  /** One argument or option pair of a quick capture. */
  datatype Token = Json | Setting(flag: string, value: string) | Word(text: string)

  predicate Fits(token: Token) {
    match token
    case Json => true
    case Setting(flag, _) => TakesValue(flag)
    case Word(text) => !StartsWithDash(text)
  }

  predicate WellFormed(tokens: seq<Token>) {
    forall i :: 0 <= i < |tokens| ==> Fits(tokens[i])
  }

  function Render1(token: Token): seq<string> {
    match token
    case Json => ["--json"]
    case Setting(flag, value) => [flag, value]
    case Word(text) => [text]
  }

  function Render(tokens: seq<Token>): seq<string> {
    if tokens == [] then [] else Render1(tokens[0]) + Render(tokens[1..])
  }

  function Settings(tokens: seq<Token>): seq<string> {
    if tokens == [] then []
    else (if tokens[0].Setting? then Render1(tokens[0]) else []) + Settings(tokens[1..])
  }

  function Words(tokens: seq<Token>): seq<string> {
    if tokens == [] then [] else (if tokens[0].Word? then [tokens[0].text] else []) + Words(tokens[1..])
  }

  function Join(words: seq<string>): string {
    if words == [] then "" else if |words| == 1 then words[0] else Join(words[..|words| - 1]) + " " + words[|words| - 1]
  }

  /** Read arguments front to back; an unknown option or a missing value has no reading. */
  function Parse(arguments: seq<string>): (tokens: Option<seq<Token>>)
    ensures tokens.Some? ==> WellFormed(tokens.value) && Render(tokens.value) == arguments
    decreases |arguments|
  {
    if arguments == [] then Some([])
    else if arguments[0] == "--json" then Prepend(Json, Parse(arguments[1..]))
    else if TakesValue(arguments[0]) then
      if |arguments| == 1 then None
      else
        assert arguments == [arguments[0], arguments[1]] + arguments[2..];
        Prepend(Setting(arguments[0], arguments[1]), Parse(arguments[2..]))
    else if StartsWithDash(arguments[0]) then None
    else
      assert arguments == [arguments[0]] + arguments[1..];
      Prepend(Word(arguments[0]), Parse(arguments[1..]))
  }

  function Prepend(token: Token, tokens: Option<seq<Token>>): (result: Option<seq<Token>>)
    ensures result.Some? <==> tokens.Some?
    ensures result.Some? ==> result.value == [token] + tokens.value && Render(result.value) == Render1(token) + Render(tokens.value)
  {
    if tokens.None? then None
    else
      assert ([token] + tokens.value)[1..] == tokens.value;
      Some([token] + tokens.value)
  }

  lemma ParseOne(token: Token, rest: seq<string>)
    requires Fits(token)
    ensures Parse(Render1(token) + rest) == Prepend(token, Parse(rest))
  {
    var arguments := Render1(token) + rest;
    match token {
      case Json => assert arguments[1..] == rest;
      case Setting(flag, value) =>
        assert arguments[2..] == rest;
        assert flag != "--json" by { assert TakesValue(flag); }
      case Word(text) =>
        assert arguments[1..] == rest;
        ValuedStartWithDash(text);
        hide TakesValue;
    }
  }

  /** Arguments have at most one reading, and every well-formed token list is read back. */
  lemma {:induction false} ParseRendered(tokens: seq<Token>)
    requires WellFormed(tokens)
    ensures Parse(Render(tokens)) == Some(tokens)
  {
    hide Fits, Render1, Prepend;
    if tokens != [] {
      assert Fits(tokens[0]) && WellFormed(tokens[1..]);
      ParseRendered(tokens[1..]);
      ParseOne(tokens[0], Render(tokens[1..]));
      assert tokens == [tokens[0]] + tokens[1..];
    }
  }

  lemma ValuedStartWithDash(text: string)
    ensures TakesValue(text) || text == "--json" ==> StartsWithDash(text)
  {
  }

  function Front(tokens: seq<Token>): seq<string> {
    ["create"] + Settings(tokens)
  }

  function QuickCommand(tokens: seq<Token>): seq<string> {
    Front(tokens) + ["--title", Join(Words(tokens))]
  }

  /** A quick capture, rewritten as an explicit `create`. */
  function QuickToCreate(arguments: seq<string>): Option<seq<string>> {
    if AnyControl(arguments) then None
    else
      var tokens := Parse(arguments);
      if tokens.None? || Words(tokens.value) == [] then None else Some(QuickCommand(tokens.value))
  }

  /** Exactly the argument lists that mix option pairs, `--json` and at least one plain word, with no
      broker-owned flag anywhere, are accepted; the result is `create`, the pairs in their order, then
      one title joining the words in theirs. */
  lemma QuickMeaning(arguments: seq<string>, result: seq<string>)
    ensures QuickToCreate(arguments) == Some(result) <==>
      && !AnyControl(arguments)
      && exists tokens :: WellFormed(tokens) && Render(tokens) == arguments && Words(tokens) != []
          && result == ["create"] + Settings(tokens) + ["--title", Join(Words(tokens))]
  {
    assert forall tokens :: QuickCommand(tokens) == ["create"] + Settings(tokens) + ["--title", Join(Words(tokens))];
    hide AnyControl, WellFormed, QuickCommand, Render, Words;
    var parsed := Parse(arguments);
    if exists tokens :: WellFormed(tokens) && Render(tokens) == arguments && Words(tokens) != [] && result == QuickCommand(tokens) {
      var tokens :| WellFormed(tokens) && Render(tokens) == arguments && Words(tokens) != [] && result == QuickCommand(tokens);
      ParseRendered(tokens);
    }
    if QuickToCreate(arguments) == Some(result) {
      assert WellFormed(parsed.value) && Render(parsed.value) == arguments;
    }
  }

  /** Split a text where it has spaces. */
  function SplitAtSpaces(text: string): (words: seq<string>)
    ensures words != []
  {
    if text == [] then [""]
    else
      var front := SplitAtSpaces(text[..|text| - 1]);
      var last := text[|text| - 1];
      if last == ' ' then front + [""] else front[..|front| - 1] + [front[|front| - 1] + [last]]
  }

  lemma {:induction false} WordExtends(text: string, word: string)
    requires ' ' !in word
    ensures var front := SplitAtSpaces(text);
      SplitAtSpaces(text + word) == front[..|front| - 1] + [front[|front| - 1] + word]
  {
    var front := SplitAtSpaces(text);
    if word == [] {
      assert text + word == text && front[|front| - 1] + word == front[|front| - 1];
      assert front == front[..|front| - 1] + [front[|front| - 1]];
    } else {
      var n := |word| - 1;
      assert (text + word)[..|text + word| - 1] == text + word[..n];
      assert (text + word)[|text + word| - 1] == word[n];
      WordExtends(text, word[..n]);
      assert front[|front| - 1] + word[..n] + [word[n]] == front[|front| - 1] + word;
    }
  }

  /** A title of plain words without spaces says exactly which words they were and in which order. */
  lemma {:induction false} TitleKeepsWords(words: seq<string>)
    requires words != [] && forall word :: word in words ==> ' ' !in word
    ensures SplitAtSpaces(Join(words)) == words
  {
    hide SplitAtSpaces;
    var n := |words| - 1;
    var front, last := words[..n], words[n];
    assert last in words && "" + last == last;
    NothingSplit();
    if n == 0 {
      WordExtends("", last);
    } else {
      TitleKeepsWords(front);
      SpaceSplits(Join(front));
      WordExtends(Join(front) + " ", last);
      assert words == front + [last];
    }
  }

  lemma NothingSplit()
    ensures SplitAtSpaces("") == [""]
  {
  }

  lemma SpaceSplits(text: string)
    ensures SplitAtSpaces(text + " ") == SplitAtSpaces(text) + [""]
  {
    var spaced := text + " ";
    assert spaced[..|spaced| - 1] == text && spaced[|spaced| - 1] == ' ';
  }

  // ----- the loops -----

  method RejectControlFlags(arguments: seq<string>) returns (accepted: bool)
    ensures accepted <==> !AnyControl(arguments)
  {
    hide IsControl;
    for i := 0 to |arguments|
      invariant forall j :: 0 <= j < i ==> !IsControl(arguments[j])
    {
      if IsControl(arguments[i]) {
        assert arguments[i] in arguments;
        return false;
      }
    }
    accepted := true;
  }

  /** The index loop over a quick capture's arguments. */
  method ScanQuick(arguments: seq<string>) returns (readable: bool, output: seq<string>, title: seq<string>, ghost tokens: seq<Token>)
    ensures readable <==> Parse(arguments).Some?
    ensures readable ==> Parse(arguments).value == tokens && output == Front(tokens) && title == Words(tokens)
  {
    hide Parse, Front, Words, Prepend, Joined, TakesValue, StartsWithDash;
    var index := 0;
    readable, output, title, tokens := true, ["create"], [], [];
    assert arguments[0..] == arguments;
    NothingRead();
    while index < |arguments|
      invariant 0 <= index <= |arguments|
      invariant output == Front(tokens) && title == Words(tokens)
      invariant Parse(arguments) == Joined(tokens, Parse(arguments[index..]))
    {
      var value := arguments[index];
      ParseStep(arguments, index);
      if value == "--json" {
        JoinedStep(tokens, Json, Parse(arguments[index + 1..]));
        tokens := tokens + [Json];
        index := index + 1;
      } else if TakesValue(value) {
        if index + 1 == |arguments| {
          NoReading(tokens);
          return false, [], [], [];
        }
        var next := arguments[index + 1];
        JoinedStep(tokens, Setting(value, next), Parse(arguments[index + 2..]));
        assert output + [value] + [next] == output + [value, next];
        tokens := tokens + [Setting(value, next)];
        output := output + [value];
        output := output + [next];
        index := index + 2;
      } else if StartsWithDash(value) {
        NoReading(tokens);
        return false, [], [], [];
      } else {
        JoinedStep(tokens, Word(value), Parse(arguments[index + 1..]));
        tokens := tokens + [Word(value)];
        title := title + [value];
        index := index + 1;
      }
    }
    assert arguments[|arguments|..] == [];
    NothingLeft(tokens);
  }

  method RewriteQuick(arguments: seq<string>) returns (result: Option<seq<string>>)
    ensures result == QuickToCreate(arguments)
  {
    hide AnyControl, Parse, Front, Words, Join;
    var accepted := RejectControlFlags(arguments);
    if !accepted {
      return None;
    }
    var readable, output, title, tokens := ScanQuick(arguments);
    if !readable || title == [] {
      return None;
    }
    assert output + ["--title"] + [Join(title)] == output + ["--title", Join(title)];
    output := output + ["--title"];
    output := output + [Join(title)];
    result := Some(output);
  }

  lemma NothingRead()
    ensures Front([]) == ["create"] && Words([]) == []
    ensures forall rest: Option<seq<Token>> :: Joined([], rest) == rest
  {
    forall rest: Option<seq<Token>> ensures Joined([], rest) == rest {
      if rest.Some? { assert [] + rest.value == rest.value; }
    }
  }

  lemma NoReading(tokens: seq<Token>)
    ensures Joined(tokens, None) == None
  {
  }

  lemma NothingLeft(tokens: seq<Token>)
    ensures Joined(tokens, Parse([])) == Some(tokens)
  {
    assert tokens + [] == tokens;
  }

  /** What parsing does with the argument at one place. */
  lemma ParseStep(arguments: seq<string>, index: nat)
    requires index < |arguments|
    ensures var value := arguments[index];
      Parse(arguments[index..]) ==
        if value == "--json" then Prepend(Json, Parse(arguments[index + 1..]))
        else if TakesValue(value) then
          if index + 1 == |arguments| then None
          else Prepend(Setting(value, arguments[index + 1]), Parse(arguments[index + 2..]))
        else if StartsWithDash(value) then None
        else Prepend(Word(value), Parse(arguments[index + 1..]))
  {
    var rest := arguments[index..];
    assert rest[1..] == arguments[index + 1..];
    if index + 1 < |arguments| { assert rest[2..] == arguments[index + 2..]; }
  }

  function Joined(tokens: seq<Token>, rest: Option<seq<Token>>): Option<seq<Token>> {
    if rest.None? then None else Some(tokens + rest.value)
  }

  lemma JoinedStep(tokens: seq<Token>, token: Token, rest: Option<seq<Token>>)
    ensures Joined(tokens, Prepend(token, rest)) == Joined(tokens + [token], rest)
    ensures Front(tokens + [token]) == Front(tokens) + (if token.Setting? then [token.flag, token.value] else [])
    ensures Words(tokens + [token]) == Words(tokens) + (if token.Word? then [token.text] else [])
  {
    if rest.Some? { assert tokens + ([token] + rest.value) == tokens + [token] + rest.value; }
    AppendToken(tokens, token);
  }

  lemma {:induction false} AppendToken(tokens: seq<Token>, token: Token)
    ensures Settings(tokens + [token]) == Settings(tokens) + (if token.Setting? then [token.flag, token.value] else [])
    ensures Words(tokens + [token]) == Words(tokens) + (if token.Word? then [token.text] else [])
  {
    if tokens == [] {
      assert [token][1..] == [];
    } else {
      assert (tokens + [token])[1..] == tokens[1..] + [token];
      AppendToken(tokens[1..], token);
    }
  }

  // ----- the whole command -----

  function WithoutJson(arguments: seq<string>): (kept: seq<string>)
    ensures forall argument :: argument in kept <==> argument in arguments && argument != "--json"
  {
    if arguments == [] then []
    else
      assert arguments == [arguments[0]] + arguments[1..];
      (if arguments[0] == "--json" then [] else [arguments[0]]) + WithoutJson(arguments[1..])
  }

  function Suffix(actor: string, externalRef: string, database: string): seq<string> {
    ["--actor", actor, "--external-ref", externalRef, "--db", database, "--json"]
  }

  function GenerationArguments(command: string, supplied: seq<string>, actor: string, externalRef: string, database: string)
    : Option<seq<string>>
  {
    var front := if command == "q" then QuickToCreate(supplied)
                 else if AnyControl(supplied) then None else Some(["create"] + WithoutJson(supplied));
    if front.None? then None else Some(front.value + Suffix(actor, externalRef, database))
  }

  lemma {:induction false} SettingsComeFromArguments(tokens: seq<Token>)
    ensures forall text :: text in Settings(tokens) ==> text in Render(tokens)
  {
    if tokens != [] { SettingsComeFromArguments(tokens[1..]); }
  }

  lemma {:induction false} TitleIsNoControl(words: seq<string>)
    requires forall word :: word in words ==> !StartsWithDash(word)
    ensures !StartsWithDash(Join(words))
  {
    if |words| > 1 { TitleIsNoControl(words[..|words| - 1]); }
  }

  lemma {:induction false} WordsAreWords(tokens: seq<Token>)
    requires WellFormed(tokens)
    ensures forall word :: word in Words(tokens) ==> !StartsWithDash(word)
  {
    if tokens != [] {
      assert Fits(tokens[0]) && WellFormed(tokens[1..]);
      WordsAreWords(tokens[1..]);
    }
  }

  /** Dropping `--json` keeps every other argument where it stood. */
  lemma {:induction false} OthersKeepTheirOrder(before: seq<string>, after: seq<string>)
    ensures WithoutJson(before + after) == WithoutJson(before) + WithoutJson(after)
    ensures forall argument :: WithoutJson([argument]) == if argument == "--json" then [] else [argument]
  {
    if before == [] {
      assert before + after == after;
    } else {
      assert (before + after)[1..] == before[1..] + after;
      OthersKeepTheirOrder(before[1..], after);
    }
  }

  /** The flags only the broker may set, alone or with a value. */
  lemma BrokerFlags(flag: string, value: string)
    ensures flag in {"--actor", "--external-ref", "--db", "--no-db", "--no-auto-flush", "--no-auto-import", "--dry-run", "--silent"} ==>
      IsControl(flag) && IsControl(flag + "=" + value)
    ensures IsControl(flag) ==> exists own ::
      && own in {"--actor", "--external-ref", "--db", "--no-db", "--no-auto-flush", "--no-auto-import", "--dry-run", "--silent"}
      && (flag == own || own + "=" <= flag)
  {
    assert FORBIDDEN[0] == "--actor" && FORBIDDEN[1] == "--external-ref" && FORBIDDEN[2] == "--db" && FORBIDDEN[3] == "--no-db";
    assert FORBIDDEN[4] == "--no-auto-flush" && FORBIDDEN[5] == "--no-auto-import" && FORBIDDEN[6] == "--dry-run";
    assert FORBIDDEN[7] == "--silent";
    if i :| 0 <= i < |FORBIDDEN| && flag == FORBIDDEN[i] {
      assert FORBIDDEN[i] + "=" <= flag + "=" + value;
    }
  }

  /** In an accepted command the broker's own flags come last, exactly once each with the broker's own values,
      and nothing the caller supplied, in flag or value position, is one of them. Of an explicit `create`
      every argument but `--json` is passed on. */
  lemma BrokerOwnsControls(command: string, supplied: seq<string>, actor: string, externalRef: string, database: string)
    requires GenerationArguments(command, supplied, actor, externalRef, database).Some?
    ensures var result := GenerationArguments(command, supplied, actor, externalRef, database).value;
      var front := |result| - 7;
      && 0 < front && result[0] == "create"
      && result[front..] == ["--actor", actor, "--external-ref", externalRef, "--db", database, "--json"]
      && (command != "q" ==> result[1..front] == WithoutJson(supplied))
      && forall i :: 0 <= i < front ==> !IsControl(result[i])
  {
    hide IsControl;
    var result := GenerationArguments(command, supplied, actor, externalRef, database).value;
    var front := result[..|result| - 7];
    assert !IsControl("create") && !IsControl("--title") by { PlainFlags(); }
    if command == "q" {
      var tokens := Parse(supplied).value;
      assert front == QuickCommand(tokens);
      SettingsComeFromArguments(tokens);
      WordsAreWords(tokens);
      TitleIsNoControl(Words(tokens));
      if IsControl(Join(Words(tokens))) { ControlLooks(Join(Words(tokens))); }
    } else {
      assert front == ["create"] + WithoutJson(supplied);
    }
    forall i | 0 <= i < |front| ensures !IsControl(front[i]) {
      assert front[i] in front;
    }
  }

  /** A command is accepted exactly when it holds no broker flag and, if a quick capture, can be read and has a word. */
  lemma CommandAcceptedIff(command: string, supplied: seq<string>, actor: string, externalRef: string, database: string)
    ensures GenerationArguments(command, supplied, actor, externalRef, database).Some? <==>
      && !AnyControl(supplied)
      && (command == "q" ==> exists tokens :: WellFormed(tokens) && Render(tokens) == supplied && Words(tokens) != [])
  {
    hide AnyControl, WellFormed, Render, Words, QuickCommand;
    if exists tokens :: WellFormed(tokens) && Render(tokens) == supplied && Words(tokens) != [] {
      var tokens :| WellFormed(tokens) && Render(tokens) == supplied && Words(tokens) != [];
      ParseRendered(tokens);
    }
  }

  lemma PlainFlags()
    ensures !IsControl("create") && !IsControl("--title")
  {
    hide IsControl;
    if IsControl("--title") { ControlLooks("--title"); }
    if IsControl("create") { ControlLooks("create"); }
  }
}
