/** Quoting for the shell, against the reading rules of the POSIX Shell Command Language: single
    quotes (section 2.2.2), double quotes (section 2.2.3), the escape character (section 2.2.1)
    and the delimiting of words (section 2.3). */
module Shell {
  import opened Options

  /** `strings.ReplaceAll(value, "'", ...)`: each single quote leaves the quoted text, is quoted
      doubly, and the quoted text is entered again. */
  function Escape(value: string): string {
    if value == "" then ""
    else (if value[0] == '\'' then "'\"'\"'" else [value[0]]) + Escape(value[1..])
  }

  /** `shellQuote`. */
  function ShellQuote(value: string): string {
    "'" + (Escape(value) + "'")
  }

  /** Character by character: a single quote becomes the five characters, any other stays. */
  lemma {:induction false} EscapeIs(a: string, c: char, b: string)
    ensures Escape(a + [c] + b) == Escape(a) + (if c == '\'' then "'\"'\"'" else [c]) + Escape(b)
    ensures ShellQuote(a) == "'" + Escape(a) + "'" && Escape("") == ""
  {
    if a == "" {
      assert (a + [c] + b)[1..] == b;
    } else {
      assert (a + [c] + b)[1..] == a[1..] + [c] + b;
      EscapeIs(a[1..], c, b);
    }
  }

  // ----- the reader -----

  datatype Mode = Bare | Single | Double

  predicate IsBlank(c: char) {
    c == ' ' || c == '\t'
  }

  /** Characters that stand for themselves outside quotes, wherever they occur in a word. */
  predicate IsOrdinary(c: char) {
    || 'a' <= c <= 'z' || 'A' <= c <= 'Z' || '0' <= c <= '9'
    || c == '-' || c == '_' || c == '.' || c == '/' || c == ':' || c == ',' || c == '=' || c == '+' || c == '@' || c == '%'
  }

  /** What a backslash escapes inside double quotes. */
  predicate IsEscapable(c: char) {
    c == '$' || c == '`' || c == '"' || c == '\\'
  }

  function Begun(word: Option<string>): string {
    if word.Some? then word.value else ""
  }

  function Close(word: Option<string>, words: seq<string>): seq<string> {
    if word.Some? then words + [word.value] else words
  }

  /** The words that have been read, and the text from the closing parenthesis on, if one ended
      them. */
  datatype Reading = Reading(words: seq<string>, rest: string)

  /** The words of a simple command, up to an unquoted closing parenthesis or the end of the text.
      `word` is the word begun, if any. The result is `None` where the text is unterminated or asks
      for anything but quoting and word splitting: another operator, an expansion, a pattern, a
      comment, a line continuation. */
  function Read(s: string, mode: Mode, word: Option<string>, words: seq<string>): Option<Reading>
    decreases |s|
  {
    if s == "" then (if mode == Bare then Some(Reading(Close(word, words), "")) else None)
    else
      var c, rest := s[0], s[1..];
      match mode
      case Bare =>
        if IsBlank(c) then Read(rest, Bare, None, Close(word, words))
        else if c == '\'' then Read(rest, Single, Some(Begun(word)), words)
        else if c == '"' then Read(rest, Double, Some(Begun(word)), words)
        else if c == '\\' then
          (if rest == "" || rest[0] == '\n' then None
           else Read(rest[1..], Bare, Some(Begun(word) + [rest[0]]), words))
        else if IsOrdinary(c) then Read(rest, Bare, Some(Begun(word) + [c]), words)
        else if c == ')' then Some(Reading(Close(word, words), s))
        else None
      case Single =>
        if c == '\'' then Read(rest, Bare, word, words)
        else Read(rest, Single, Some(Begun(word) + [c]), words)
      case Double =>
        if c == '"' then Read(rest, Bare, word, words)
        else if c == '$' || c == '`' then None
        else if c == '\\' && rest != "" && rest[0] == '\n' then None
        else if c == '\\' && rest != "" && IsEscapable(rest[0]) then
          Read(rest[1..], Double, Some(Begun(word) + [rest[0]]), words)
        else Read(rest, Double, Some(Begun(word) + [c]), words)
  }

  /** The words of a whole text. */
  function Words(s: string): Option<seq<string>> {
    match Read(s, Bare, None, [])
    case Some(Reading(words, "")) => Some(words)
    case _ => None
  }

  // ----- the round trip -----

  /** The five characters that stand for one single quote. */
  lemma QuoteInQuotes(rest: string, word: string, words: seq<string>)
    ensures Read("'\"'\"'" + rest, Single, Some(word), words) == Read(rest, Single, Some(word + "'"), words)
  {
    var s := "'\"'\"'" + rest;
    assert s[1..] == "\"'\"'" + rest;
    assert s[1..][1..] == "'\"'" + rest;
    assert s[1..][1..][1..] == "\"'" + rest;
    assert s[1..][1..][1..][1..] == "'" + rest;
    assert s[1..][1..][1..][1..][1..] == rest;
    assert Read(s, Single, Some(word), words) == Read(s[1..], Bare, Some(word), words);
    assert Read(s[1..], Bare, Some(word), words) == Read(s[1..][1..], Double, Some(word), words);
    assert Read(s[1..][1..], Double, Some(word), words) == Read(s[1..][1..][1..], Double, Some(word + "'"), words);
  }

  lemma {:induction false} EscapeReads(value: string, rest: string, word: string, words: seq<string>)
    ensures Read(Escape(value) + ("'" + rest), Single, Some(word), words) == Read(rest, Bare, Some(word + value), words)
  {
    if value == "" {
      assert Escape(value) + ("'" + rest) == "'" + rest && ("'" + rest)[1..] == rest;
      assert word + value == word;
    } else {
      var tail := Escape(value[1..]) + ("'" + rest);
      EscapeReads(value[1..], rest, word + [value[0]], words);
      assert word + [value[0]] + value[1..] == word + value;
      if value[0] == '\'' {
        assert Escape(value) + ("'" + rest) == "'\"'\"'" + tail;
        QuoteInQuotes(tail, word, words);
        assert [value[0]] == "'";
      } else {
        assert Escape(value) + ("'" + rest) == [value[0]] + tail && ([value[0]] + tail)[1..] == tail;
      }
    }
  }

  /** Quoted text is read as the value, whatever the value, the word begun and the text after. */
  lemma QuoteReads(value: string, rest: string, word: Option<string>, words: seq<string>)
    ensures Read(ShellQuote(value) + rest, Bare, word, words) == Read(rest, Bare, Some(Begun(word) + value), words)
  {
    var inner := Escape(value) + ("'" + rest);
    assert ShellQuote(value) + rest == "'" + inner && ("'" + inner)[1..] == inner;
    EscapeReads(value, rest, Begun(word), words);
  }

  /** `ShellQuote(value)` is one word, equal to the value. */
  lemma QuoteRoundTrip(value: string)
    ensures Words(ShellQuote(value)) == Some([value])
  {
    QuoteReads(value, "", None, []);
    assert ShellQuote(value) + "" == ShellQuote(value);
    assert "" + value == value && [] + [value] == [value];
  }

  // ----- whole commands -----

  /** A piece of a word: plain text or a quoted value. */
  datatype Piece = Plain(text: string) | Quoted(value: string)

  type Word = seq<Piece>

  predicate PlainText(s: string) {
    s != "" && forall c :: c in s ==> IsOrdinary(c)
  }

  ghost predicate WellFormed(w: Word) {
    w != [] && forall p :: p in w && p.Plain? ==> PlainText(p.text)
  }

  function PrintPiece(p: Piece): string {
    match p
    case Plain(text) => text
    case Quoted(value) => ShellQuote(value)
  }

  function PieceMeaning(p: Piece): string {
    match p
    case Plain(text) => text
    case Quoted(value) => value
  }

  function PrintWord(w: Word): string {
    if w == [] then "" else PrintPiece(w[0]) + PrintWord(w[1..])
  }

  function MeaningOf(w: Word): string {
    if w == [] then "" else PieceMeaning(w[0]) + MeaningOf(w[1..])
  }

  /** The words of a command, separated by single spaces. */
  function Print(command: seq<Word>): string {
    if command == [] then ""
    else if |command| == 1 then PrintWord(command[0])
    else PrintWord(command[0]) + (" " + Print(command[1..]))
  }

  function Meaning(command: seq<Word>): seq<string> {
    if command == [] then [] else [MeaningOf(command[0])] + Meaning(command[1..])
  }

  lemma {:induction false} PlainReads(text: string, rest: string, word: Option<string>, words: seq<string>)
    requires PlainText(text)
    ensures Read(text + rest, Bare, word, words) == Read(rest, Bare, Some(Begun(word) + text), words)
  {
    var c := text[0];
    assert IsOrdinary(c);
    assert text + rest == [c] + (text[1..] + rest) && (text + rest)[1..] == text[1..] + rest;
    if text[1..] == "" {
      assert text == [c] && text[1..] + rest == rest;
    } else {
      PlainReads(text[1..], rest, Some(Begun(word) + [c]), words);
      assert Begun(word) + [c] + text[1..] == Begun(word) + text;
    }
  }

  lemma PieceReads(p: Piece, rest: string, word: Option<string>, words: seq<string>)
    requires p.Plain? ==> PlainText(p.text)
    ensures Read(PrintPiece(p) + rest, Bare, word, words) == Read(rest, Bare, Some(Begun(word) + PieceMeaning(p)), words)
  {
    match p
    case Plain(text) => PlainReads(text, rest, word, words);
    case Quoted(value) => QuoteReads(value, rest, word, words);
  }

  lemma Associative(a: string, b: string, c: string)
    ensures a + (b + c) == a + b + c
  {
  }

  lemma {:induction false} WordReads(w: Word, rest: string, word: Option<string>, words: seq<string>)
    requires WellFormed(w)
    ensures Read(PrintWord(w) + rest, Bare, word, words) == Read(rest, Bare, Some(Begun(word) + MeaningOf(w)), words)
  {
    var others, here := w[1..], PieceMeaning(w[0]);
    assert w[0] in w;
    PieceReads(w[0], PrintWord(others) + rest, word, words);
    Associative(PrintPiece(w[0]), PrintWord(others), rest);
    Associative(Begun(word), here, MeaningOf(others));
    if others == [] {
      assert PrintWord(others) + rest == rest && here + MeaningOf(others) == here;
    } else {
      WordReads(others, rest, Some(Begun(word) + here), words);
    }
  }

  /** Where a command may end: at the end of the text or at a closing parenthesis. */
  predicate Ends(tail: string) {
    tail == "" || tail[0] == ')'
  }

  lemma EndsReads(tail: string, word: Option<string>, words: seq<string>)
    requires Ends(tail)
    ensures Read(tail, Bare, word, words) == Some(Reading(Close(word, words), tail))
  {
  }

  lemma OneWordReads(w: Word, words: seq<string>, tail: string)
    requires WellFormed(w) && Ends(tail)
    ensures Read(PrintWord(w) + tail, Bare, None, words) == Some(Reading(words + [MeaningOf(w)], tail))
  {
    WordReads(w, tail, None, words);
    EndsReads(tail, Some("" + MeaningOf(w)), words);
    assert "" + MeaningOf(w) == MeaningOf(w);
  }

  lemma SpaceReads(w: Word, rest: string, words: seq<string>)
    requires WellFormed(w)
    ensures Read(PrintWord(w) + (" " + rest), Bare, None, words) == Read(rest, Bare, None, words + [MeaningOf(w)])
  {
    WordReads(w, " " + rest, None, words);
    assert (" " + rest)[1..] == rest && "" + MeaningOf(w) == MeaningOf(w);
  }

  lemma SpacedTail(a: string, b: string, tail: string)
    ensures (a + (" " + b)) + tail == a + (" " + (b + tail))
  {
  }

  lemma MeaningStep(command: seq<Word>, words: seq<string>)
    requires command != []
    ensures words + [MeaningOf(command[0])] + Meaning(command[1..]) == words + Meaning(command)
    ensures |command| == 1 ==> words + [MeaningOf(command[0])] == words + Meaning(command)
  {
    InsertWord(words, MeaningOf(command[0]), Meaning(command[1..]));
  }

  lemma InsertWord(words: seq<string>, word: string, more: seq<string>)
    ensures words + [word] + more == words + ([word] + more)
    ensures words + [] == words && [word] + [] == [word]
  {
  }

  /** Every command printed from plain text and quoted values splits into exactly its words, at the
      end of a text as well as before a closing parenthesis. */
  lemma {:induction false} CommandReads(command: seq<Word>, words: seq<string>, tail: string)
    requires (forall w :: w in command ==> WellFormed(w)) && Ends(tail)
    ensures Read(Print(command) + tail, Bare, None, words) == Some(Reading(words + Meaning(command), tail))
  {
    if command == [] {
      EndsReads(tail, None, words);
      assert Meaning(command) == [] && words + [] == words;
      assert Print(command) + tail == tail;
    } else {
      var w, rest := command[0], command[1..];
      assert w in command;
      MeaningStep(command, words);
      if |command| == 1 {
        OneWordReads(w, words, tail);
      } else {
        SpacedTail(PrintWord(w), Print(rest), tail);
        SpaceReads(w, Print(rest) + tail, words);
        CommandReads(rest, words + [MeaningOf(w)], tail);
      }
    }
  }

  lemma WholeCommandReads(command: seq<Word>)
    requires forall w :: w in command ==> WellFormed(w)
    ensures Words(Print(command)) == Some(Meaning(command))
  {
    CommandReads(command, [], "");
    assert Print(command) + "" == Print(command) && [] + Meaning(command) == Meaning(command);
  }

  // ----- the docker command -----

  const DOCKER_RUN: seq<string> := [
    "docker", "run", "-d", "--name", "rotatopilot-agent", "--restart", "unless-stopped", "--read-only",
    "--tmpfs", "/tmp:rw,noexec,nosuid,size=8m", "--security-opt", "no-new-privileges:true", "--cap-drop", "ALL"]

  const IMAGE := "ghcr.io/xiaofujie369/" + "rotatopilot-agent:latest"

  function PlainWords(texts: seq<string>): seq<Word> {
    seq(|texts|, k requires 0 <= k < |texts| => [Plain(texts[k])])
  }

  /** An environment option of `docker run`. */
  function EnvOption(name: string, value: string): seq<Word> {
    [[Plain("-e")], [Plain(name), Quoted(value)]]
  }

  /** The command shown to the operator. */
  function DockerCommand(url: string, token: string, machine: string): seq<Word> {
    PlainWords(DOCKER_RUN) + EnvOption("CONTROLLER_URL=", url) + EnvOption("AGENT_TOKEN=", token)
    + EnvOption("SERVER_ID=", machine) + [[Plain(IMAGE)]]
  }

  function DockerArguments(url: string, token: string, machine: string): seq<string> {
    DOCKER_RUN + ["-e", "CONTROLLER_URL=" + url, "-e", "AGENT_TOKEN=" + token, "-e", "SERVER_ID=" + machine, IMAGE]
  }

  lemma {:induction false} MeaningConcat(a: seq<Word>, b: seq<Word>)
    ensures Meaning(a + b) == Meaning(a) + Meaning(b)
  {
    if a == [] {
      assert a + b == b;
    } else {
      assert (a + b)[1..] == a[1..] + b;
      MeaningConcat(a[1..], b);
    }
  }

  lemma {:induction false} MeaningPlain(texts: seq<string>)
    ensures Meaning(PlainWords(texts)) == texts
  {
    if texts != [] {
      MeaningPlain(texts[1..]);
      assert PlainWords(texts)[1..] == PlainWords(texts[1..]);
      assert MeaningOf([Plain(texts[0])]) == texts[0] + "" == texts[0];
    }
  }

  lemma PlainJoins(a: string, b: string)
    requires PlainText(a) && PlainText(b)
    ensures PlainText(a + b)
  {
  }

  lemma NameWordsArePlain()
    ensures PlainText("docker")
    ensures PlainText("run")
    ensures PlainText("-d")
    ensures PlainText("--name")
    ensures PlainText("rotatopilot-agent")
  {
  }

  lemma RestartWordsArePlain()
    ensures PlainText("--restart")
    ensures PlainText("unless-stopped")
    ensures PlainText("--read-only")
    ensures PlainText("--tmpfs")
  {
  }

  lemma MountIsPlain()
    ensures PlainText("/tmp:rw,noexec,nosuid,size=8m")
  {
  }

  lemma SecurityWordsArePlain()
    ensures PlainText("--security-opt")
    ensures PlainText("no-new-privileges:true")
    ensures PlainText("--cap-drop")
    ensures PlainText("ALL")
  {
  }

  lemma OptionsArePlain()
    ensures PlainText("-e") && PlainText("CONTROLLER_URL=") && PlainText("AGENT_TOKEN=") && PlainText("SERVER_ID=")
  {
  }

  lemma ImageIsPlain()
    ensures PlainText(IMAGE)
  {
    PlainJoins("ghcr.io/xiaofujie369/", "rotatopilot-agent:latest");
  }

  lemma RunWordsArePlain()
    ensures forall t :: t in DOCKER_RUN ==> PlainText(t)
  {
    NameWordsArePlain();
    RestartWordsArePlain();
    MountIsPlain();
    SecurityWordsArePlain();
  }

  lemma PlainMeaning(text: string)
    ensures MeaningOf([Plain(text)]) == text
    ensures Meaning([[Plain(text)]]) == [text]
  {
    assert MeaningOf([Plain(text)]) == text + "" == text;
  }

  lemma EnvOptionMeaning(name: string, value: string)
    ensures Meaning(EnvOption(name, value)) == ["-e", name + value]
  {
    var w: Word := [Plain(name), Quoted(value)];
    assert w[1..] == [Quoted(value)];
    assert MeaningOf([Quoted(value)]) == value + "" == value;
    PlainMeaning("-e");
    assert EnvOption(name, value)[1..] == [w];
    assert Meaning([w]) == [MeaningOf(w)] + [] == [name + value];
  }

  lemma Flatten(run: seq<string>, a: string, b: string, c: string, d: string, e: string, f: string, g: string)
    ensures run + [a, b] + [c, d] + [e, f] + [g] == run + [a, b, c, d, e, f, g]
  {
  }

  lemma MeaningOfFive(a: seq<Word>, b: seq<Word>, c: seq<Word>, d: seq<Word>, e: seq<Word>)
    ensures Meaning(a + b + c + d + e) == Meaning(a) + Meaning(b) + Meaning(c) + Meaning(d) + Meaning(e)
  {
    MeaningConcat(a, b);
    MeaningConcat(a + b, c);
    MeaningConcat(a + b + c, d);
    MeaningConcat(a + b + c + d, e);
  }

  lemma DockerMeaning(url: string, token: string, machine: string)
    ensures Meaning(DockerCommand(url, token, machine)) == DockerArguments(url, token, machine)
  {
    MeaningOfFive(PlainWords(DOCKER_RUN), EnvOption("CONTROLLER_URL=", url), EnvOption("AGENT_TOKEN=", token),
                  EnvOption("SERVER_ID=", machine), [[Plain(IMAGE)]]);
    MeaningPlain(DOCKER_RUN);
    EnvOptionMeaning("CONTROLLER_URL=", url);
    EnvOptionMeaning("AGENT_TOKEN=", token);
    EnvOptionMeaning("SERVER_ID=", machine);
    PlainMeaning(IMAGE);
    Flatten(DOCKER_RUN, "-e", "CONTROLLER_URL=" + url, "-e", "AGENT_TOKEN=" + token, "-e", "SERVER_ID=" + machine, IMAGE);
  }

  lemma DockerVector(url: string, token: string, machine: string)
    ensures DockerArguments(url, token, machine) == [
              "docker", "run", "-d", "--name", "rotatopilot-agent", "--restart", "unless-stopped", "--read-only",
              "--tmpfs", "/tmp:rw,noexec,nosuid,size=8m", "--security-opt", "no-new-privileges:true", "--cap-drop", "ALL",
              "-e", "CONTROLLER_URL=" + url, "-e", "AGENT_TOKEN=" + token, "-e", "SERVER_ID=" + machine,
              "ghcr.io/xiaofujie369/rotatopilot-agent:latest"]
  {
    ImageName();
  }

  lemma ImageName()
    ensures IMAGE == "ghcr.io/xiaofujie369/rotatopilot-agent:latest"
  {
  }

  /** The docker command splits into the same fixed argument vector around the URL, the token and
      the machine ID, whatever these are. */
  lemma DockerCommandReads(url: string, token: string, machine: string)
    ensures Words(Print(DockerCommand(url, token, machine))) == Some([
              "docker", "run", "-d", "--name", "rotatopilot-agent", "--restart", "unless-stopped", "--read-only",
              "--tmpfs", "/tmp:rw,noexec,nosuid,size=8m", "--security-opt", "no-new-privileges:true", "--cap-drop", "ALL",
              "-e", "CONTROLLER_URL=" + url, "-e", "AGENT_TOKEN=" + token, "-e", "SERVER_ID=" + machine,
              "ghcr.io/xiaofujie369/rotatopilot-agent:latest"])
  {
    var command := DockerCommand(url, token, machine);
    RunWordsArePlain();
    OptionsArePlain();
    ImageIsPlain();
    forall w | w in command ensures WellFormed(w) {
      if w in PlainWords(DOCKER_RUN) {
        var k :| 0 <= k < |DOCKER_RUN| && w == PlainWords(DOCKER_RUN)[k];
        assert DOCKER_RUN[k] in DOCKER_RUN;
      }
    }
    WholeCommandReads(command);
    DockerMeaning(url, token, machine);
    DockerVector(url, token, machine);
  }

  // ----- the install command -----

  /** The command whose output is the installer, and the arguments the installer gets. */
  function Fetch(url: string): seq<Word> {
    [[Plain("curl")], [Plain("-fsSL")], [Quoted(url + "/install-agent.sh")]]
  }

  function InstallOptions(url: string, token: string, machine: string): seq<Word> {
    [[Plain("--controller")], [Quoted(url)], [Plain("--agent-token")], [Quoted(token)],
     [Plain("--server-id")], [Quoted(machine)]]
  }

  const BASH := "bash <("

  /** The command shown to the operator. */
  function InstallCommand(url: string, token: string, machine: string): string {
    BASH + (Print(Fetch(url)) + (")" + (" " + Print(InstallOptions(url, token, machine)))))
  }

  /** `bash` with a process substitution, a Bash extension, as its first argument: the words of the
      substituted command and the words after it. */
  function BashWords(s: string): Option<(seq<string>, seq<string>)> {
    if !(BASH <= s) then None
    else
      match Read(s[|BASH|..], Bare, None, [])
      case Some(Reading(inner, rest)) =>
        if rest == "" then None
        else (match Words(rest[1..]) case Some(outer) => Some((inner, outer)) case None => None)
      case None => None
  }

  lemma InstallTextIsPlain()
    ensures PlainText("curl") && PlainText("-fsSL")
    ensures PlainText("--controller") && PlainText("--agent-token") && PlainText("--server-id")
  {
  }

  lemma FetchMeaning(url: string)
    ensures Meaning(Fetch(url)) == ["curl", "-fsSL", url + "/install-agent.sh"]
  {
    ThreeWords([Plain("curl")], [Plain("-fsSL")], [Quoted(url + "/install-agent.sh")]);
    OnePiece(Plain("curl"));
    OnePiece(Plain("-fsSL"));
    OnePiece(Quoted(url + "/install-agent.sh"));
  }

  lemma OnePiece(p: Piece)
    ensures MeaningOf([p]) == PieceMeaning(p)
  {
    assert MeaningOf([p]) == PieceMeaning(p) + "" == PieceMeaning(p);
  }

  lemma ThreeWords(a: Word, b: Word, c: Word)
    ensures Meaning([a, b, c]) == [MeaningOf(a), MeaningOf(b), MeaningOf(c)]
  {
    assert [a, b, c][1..] == [b, c] && [b, c][1..] == [c] && [c][1..] == [];
    assert Meaning([c]) == [MeaningOf(c)] + [];
    assert Meaning([b, c]) == [MeaningOf(b)] + [MeaningOf(c)];
    assert Meaning([a, b, c]) == [MeaningOf(a)] + ([MeaningOf(b)] + [MeaningOf(c)]);
  }

  lemma OptionsMeaning(url: string, token: string, machine: string)
    ensures Meaning(InstallOptions(url, token, machine)) ==
            ["--controller", url, "--agent-token", token, "--server-id", machine]
  {
    var a, b := [[Plain("--controller")], [Quoted(url)], [Plain("--agent-token")]],
                [[Quoted(token)], [Plain("--server-id")], [Quoted(machine)]];
    assert InstallOptions(url, token, machine) == a + b;
    MeaningConcat(a, b);
    ThreeWords(a[0], a[1], a[2]);
    ThreeWords(b[0], b[1], b[2]);
    OnePiece(Plain("--controller"));
    OnePiece(Quoted(url));
    OnePiece(Plain("--agent-token"));
    OnePiece(Quoted(token));
    OnePiece(Plain("--server-id"));
    OnePiece(Quoted(machine));
  }

  lemma OptionsRead(url: string, token: string, machine: string)
    ensures Words(" " + Print(InstallOptions(url, token, machine))) ==
            Some(["--controller", url, "--agent-token", token, "--server-id", machine])
  {
    var text := Print(InstallOptions(url, token, machine));
    InstallTextIsPlain();
    WholeCommandReads(InstallOptions(url, token, machine));
    OptionsMeaning(url, token, machine);
    assert (" " + text)[1..] == text;
  }

  /** The install command fetches the installer from the controller's URL and nothing else, and
      passes it the same fixed arguments around the URL, the token and the machine ID, whatever
      these are: no value closes the substitution early. */
  lemma InstallCommandReads(url: string, token: string, machine: string)
    ensures BashWords(InstallCommand(url, token, machine)) ==
            Some((["curl", "-fsSL", url + "/install-agent.sh"],
                  ["--controller", url, "--agent-token", token, "--server-id", machine]))
  {
    var tail := ")" + (" " + Print(InstallOptions(url, token, machine)));
    InstallTextIsPlain();
    CommandReads(Fetch(url), [], tail);
    FetchMeaning(url);
    OptionsRead(url, token, machine);
    assert InstallCommand(url, token, machine)[|BASH|..] == Print(Fetch(url)) + tail;
    assert tail[1..] == " " + Print(InstallOptions(url, token, machine));
    assert [] + Meaning(Fetch(url)) == Meaning(Fetch(url));
  }
}
