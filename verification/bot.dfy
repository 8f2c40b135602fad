/**
 * securitybot/bot.py: the bot that routes new alerts to users, parses their
 * chat commands and steps every user with outstanding work.
 *
 * Chat, the task database and Duo stay outside: what the bot sends a user is
 * appended to that user's effects, the task writes for alerts no user takes
 * are kept in `writes`, and each user's Duo answers and the clock are inputs.
 */
module Bot {
  import opened Wrappers
  import Strings
  import T = Tasker
  import U = User
  import C = Commands
  import Blacklist
  import Util

  // ----------------------------------------------------------- cleaning

  /** The characters `clean_input` replaces: typographic quotes and dashes. */
  predicate Smart(c: char)
  {
    c == '\U{2018}' || c == '\U{2019}' || c == '\U{201C}' || c == '\U{201D}' || c == '\U{2013}' || c == '\U{2014}'
  }

  /** What `clean_input` puts in place of one character. */
  function CleanChar(c: char): (r: string)
    ensures forall i :: 0 <= i < |r| ==> !Smart(r[i])
    ensures !Smart(c) ==> r == [c]
  {
    if c == '\U{2018}' || c == '\U{2019}' then "'"
    else if c == '\U{201C}' || c == '\U{201D}' then "\""
    else if c == '\U{2013}' || c == '\U{2014}' then "--"
    else [c]
  }

  /** `clean_input(text)`: single and double typographic quotes become ASCII quotes, en and em dashes `--`. */
  function CleanInput(text: string): (r: string)
    ensures forall i :: 0 <= i < |r| ==> !Smart(r[i])
    ensures |text| <= |r|
  {
    if |text| == 0 then "" else CleanChar(text[0]) + CleanInput(text[1..])
  }

  /** Cleaning works character by character. */
  lemma {:induction false} CleanInputAppend(a: string, b: string)
    ensures CleanInput(a + b) == CleanInput(a) + CleanInput(b)
  {
    if |a| == 0 {
      assert a + b == b;
    } else {
      assert (a + b)[1..] == a[1..] + b;
      CleanInputAppend(a[1..], b);
    }
  }

  /** Text without typographic quotes or dashes is left as it is. */
  lemma {:induction false} CleanInputPlain(text: string)
    requires forall i :: 0 <= i < |text| ==> !Smart(text[i])
    ensures CleanInput(text) == text
  {
    if |text| > 0 {
      CleanInputPlain(text[1..]);
      assert text == [text[0]] + text[1..];
    }
  }

  /** `clean_input` is idempotent. */
  lemma CleanInputIdempotent(text: string)
    ensures CleanInput(CleanInput(text)) == CleanInput(text)
  {
    CleanInputPlain(CleanInput(text));
  }

  /** `PUNCTUATION`. */
  const PUNCTUATION: string := ".,!?'\"`"

  /** The characters of `s` that are not in PUNCTUATION, in order. */
  function StripPunctuation(s: string): (r: string)
    ensures forall i :: 0 <= i < |r| ==> r[i] !in PUNCTUATION && r[i] in s
  {
    if |s| == 0 then ""
    else (if s[0] in PUNCTUATION then "" else [s[0]]) + StripPunctuation(s[1..])
  }

  /** `clean_command(command)`: lower-cased, with every PUNCTUATION character deleted. */
  function CleanCommand(command: string): (r: string)
    ensures forall i :: 0 <= i < |r| ==> r[i] !in PUNCTUATION && !('A' <= r[i] <= 'Z')
  {
    var lowered := Strings.Lower(command);
    var r := StripPunctuation(lowered);
    assert forall i :: 0 <= i < |r| ==> r[i] in lowered;
    r
  }

  lemma {:induction false} StripAppend(a: string, b: string)
    ensures StripPunctuation(a + b) == StripPunctuation(a) + StripPunctuation(b)
  {
    if |a| == 0 {
      assert a + b == b;
    } else {
      assert (a + b)[1..] == a[1..] + b;
      StripAppend(a[1..], b);
    }
  }

  lemma {:induction false} StripNothing(s: string)
    requires forall i :: 0 <= i < |s| ==> s[i] !in PUNCTUATION
    ensures StripPunctuation(s) == s
  {
    if |s| > 0 {
      StripNothing(s[1..]);
      assert s == [s[0]] + s[1..];
    }
  }

  /** Cleaning a command works character by character. */
  lemma CleanCommandAppend(a: string, b: string)
    ensures CleanCommand(a + b) == CleanCommand(a) + CleanCommand(b)
  {
    assert Strings.Lower(a + b) == Strings.Lower(a) + Strings.Lower(b);
    StripAppend(Strings.Lower(a), Strings.Lower(b));
  }

  /** A cleaned command is clean. */
  lemma CleanCommandIdempotent(command: string)
    ensures CleanCommand(CleanCommand(command)) == CleanCommand(command)
  {
    var c := CleanCommand(command);
    assert Strings.Lower(c) == c;
    StripNothing(c);
  }

  /** A trailing punctuation mark does not change the command. */
  lemma TrailingPunctuation(word: string, p: char)
    requires p in PUNCTUATION
    ensures CleanCommand(word + [p]) == CleanCommand(word)
  {
    CleanCommandAppend(word, [p]);
    assert Strings.Lower([p]) == [p];
    assert StripPunctuation([p]) == "" by {
      assert [p][1..] == "";
    }
  }

  // ------------------------------------------------------------ parsing

  /** The exception raised when a command has no first word. */
  const INDEX_ERROR: string := "IndexError: list index out of range"

  /**
   * What `shlex.split` makes of the cleaned text: its tokens, or `None`
   * when it raises ValueError (an unbalanced quote, say).
   */
  type Tokenizer = string -> Option<seq<string>>

  /** The tokens `parse_command` works on: shlex's, or the byte string's whitespace split when shlex fails. */
  function Split(cleaned: string, tokenize: Tokenizer): seq<string>
  {
    match tokenize(cleaned)
    case Some(ws) => ws
    case None => Strings.Words(cleaned, Strings.Bytes)
  }

  /**
   * The exception `encode('utf-8')` raises on a byte string holding a byte
   * of 0x80 or more: Python 2 first decodes it as ASCII.
   */
  const UNICODE_DECODE_ERROR: string := "UnicodeDecodeError: 'ascii' codec can't decode byte"

  /**
   * `parse_command(text)`: the cleaned first token and the remaining tokens.
   * No token raises IndexError. A first token with a non-ASCII character is
   * a byte string holding bytes of 0x80 or more once `clean_input` has
   * encoded it, and `clean_command` raises UnicodeDecodeError encoding it
   * again.
   */
  function ParseCommand(text: string, tokenize: Tokenizer): (r: Result<(string, seq<string>), string>)
    ensures var split := Split(CleanInput(text), tokenize);
            r.Err? <==> |split| == 0 || !Strings.Ascii(split[0])
    ensures r.Err? && |Split(CleanInput(text), tokenize)| == 0 ==> r.error == INDEX_ERROR
    ensures r.Err? && |Split(CleanInput(text), tokenize)| > 0 ==> r.error == UNICODE_DECODE_ERROR
  {
    var split := Split(CleanInput(text), tokenize);
    if |split| == 0 then Err(INDEX_ERROR)
    else if !Strings.Ascii(split[0]) then Err(UNICODE_DECODE_ERROR)
    else Ok((CleanCommand(split[0]), split[1..]))
  }

  /**
   * `is_command(text)`, as written: the cleaned first word of the `unicode`
   * text names a command; no word raises IndexError. The text is split
   * before `clean_input` encodes it, so at Unicode whitespace as well.
   */
  function IsCommand(text: string, commands: set<string>): (r: Result<bool, string>)
    ensures r.Err? <==> |Strings.Words(text, Strings.Unicode)| == 0
    ensures r.Ok? ==> (r.value <==> CleanCommand(Strings.Words(text, Strings.Unicode)[0]) in commands)
  {
    var words := Strings.Words(text, Strings.Unicode);
    if |words| == 0 then Err(INDEX_ERROR) else Ok(CleanCommand(words[0]) in commands)
  }

  /**
   * `is_command` splitting the text as `parse_command` sees it when shlex
   * fails: cleaned and encoded, so at ASCII whitespace only; a first word
   * that `clean_command` could not encode again is no command.
   */
  function IsCommandCleaned(text: string, commands: set<string>): (r: Result<bool, string>)
    ensures r.Err? <==> |Strings.Words(CleanInput(text), Strings.Bytes)| == 0
    ensures r.Ok? && !Strings.Ascii(Strings.Words(CleanInput(text), Strings.Bytes)[0]) ==> r == Ok(false)
  {
    var words := Strings.Words(CleanInput(text), Strings.Bytes);
    if |words| == 0 then Err(INDEX_ERROR) else Ok(Strings.Ascii(words[0]) && CleanCommand(words[0]) in commands)
  }

  /**
   * Words separated by single spaces, where shlex either agrees with the
   * whitespace split or fails over to it, parse into the cleaned first word
   * and the rest unchanged, unless the first word is not ASCII.
   */
  lemma ParseCommandOfWords(ws: seq<string>, tokenize: Tokenizer)
    requires |ws| > 0 && forall i :: 0 <= i < |ws| ==> |ws[i]| > 0 && Strings.NoSpace(ws[i], Strings.Bytes)
    requires var text := Strings.Join(ws, " "); forall i :: 0 <= i < |text| ==> !Smart(text[i])
    requires tokenize(Strings.Join(ws, " ")).None? || tokenize(Strings.Join(ws, " ")) == Some(ws)
    ensures ParseCommand(Strings.Join(ws, " "), tokenize)
            == if Strings.Ascii(ws[0]) then Ok((CleanCommand(ws[0]), ws[1..])) else Err(UNICODE_DECODE_ERROR)
  {
    CleanInputPlain(Strings.Join(ws, " "));
    Strings.WordsOfJoin(ws, Strings.Bytes);
  }

  /** A word with a punctuation mark after it parses as the word alone, with no arguments, unless the word is not ASCII. */
  lemma ParseCommandTrailingPunctuation(word: string, p: char, tokenize: Tokenizer)
    requires |word| > 0 && Strings.NoSpace(word, Strings.Bytes) && forall i :: 0 <= i < |word| ==> !Smart(word[i])
    requires p in PUNCTUATION
    requires tokenize(word + [p]).None? || tokenize(word + [p]) == Some([word + [p]])
    ensures ParseCommand(word + [p], tokenize)
            == if Strings.Ascii(word) then Ok((CleanCommand(word), [])) else Err(UNICODE_DECODE_ERROR)
  {
    var w := word + [p];
    assert Strings.Join([w], " ") == w;
    assert !Strings.IsSpace(p) && !Smart(p);
    assert forall i :: 0 <= i < |w| ==> !Strings.IsSpace(w[i]) && !Smart(w[i]) by {
      forall i | 0 <= i < |w| ensures !Strings.IsSpace(w[i]) && !Smart(w[i]) {
        if i < |word| { assert w[i] == word[i]; } else { assert w[i] == p; }
      }
    }
    ParseCommandOfWords([w], tokenize);
    assert [w][0] == w && [w][1..] == [];
    assert p <= '\U{7F}';
    Strings.AsciiAppend(word, [p]);
    TrailingPunctuation(word, p);
  }

  /** Cleaning a command neither adds nor drops a non-ASCII character. */
  lemma {:induction false} CleanCommandAscii(command: string)
    ensures Strings.Ascii(CleanCommand(command)) <==> Strings.Ascii(command)
  {
    if |command| > 0 {
      var c := command[0];
      assert command == [c] + command[1..];
      CleanCommandAppend([c], command[1..]);
      CleanCommandAscii(command[1..]);
      assert Strings.Lower([c]) == [Strings.LowerChar(c)];
      var lc := Strings.LowerChar(c);
      assert StripPunctuation([lc]) == (if lc in PUNCTUATION then "" else [lc]) by {
        assert [lc][1..] == "";
      }
      assert lc <= '\U{7F}' <==> c <= '\U{7F}';
      assert lc in PUNCTUATION ==> lc <= '\U{7F}';
      Strings.AsciiAppend(CleanCommand([c]), CleanCommand(command[1..]));
      Strings.AsciiAppend([c], command[1..]);
    }
  }

  /**
   * On text without typographic quotes, dashes or non-ASCII whitespace,
   * whose shlex split agrees with the whitespace split (or fails), a key of
   * the command table that `parse_command` yields passes `is_command`, and
   * text that passes `is_command` yields such a key unless `parse_command`
   * raises UnicodeDecodeError, which it never does when the command names
   * are ASCII.
   */
  lemma IsCommandFindsParsedKey(text: string, commands: set<string>, tokenize: Tokenizer)
    requires forall i :: 0 <= i < |text| ==> !Smart(text[i]) && !Strings.IsWideSpace(text[i])
    requires tokenize(text).None? || tokenize(text) == Some(Strings.Words(text, Strings.Bytes))
    ensures ParseCommand(text, tokenize).Ok? && ParseCommand(text, tokenize).value.0 in commands ==> IsCommand(text, commands) == Ok(true)
    ensures IsCommand(text, commands) == Ok(true) ==>
              || ParseCommand(text, tokenize) == Err(UNICODE_DECODE_ERROR)
              || (ParseCommand(text, tokenize).Ok? && ParseCommand(text, tokenize).value.0 in commands)
    ensures (forall key :: key in commands ==> Strings.Ascii(key)) ==>
              (IsCommand(text, commands) == Ok(true) <==> ParseCommand(text, tokenize).Ok? && ParseCommand(text, tokenize).value.0 in commands)
  {
    CleanInputPlain(text);
    Strings.WordsAgree(text);
    var words := Strings.Words(text, Strings.Bytes);
    if |words| > 0 {
      CleanCommandAscii(words[0]);
    }
  }

  /** A word of lower-case ASCII letters, as command names and their arguments usually are. */
  predicate LowerWord(w: string)
  {
    |w| > 0 && forall i :: 0 <= i < |w| ==> 'a' <= w[i] <= 'z'
  }

  lemma LowerWordAscii(w: string)
    requires LowerWord(w)
    ensures Strings.Ascii(w)
  {
  }

  /** `unicode.split()` breaks two words joined by a character of its own further whitespace. */
  lemma SplitAtWideSpace(word: string, sep: char, arg: string)
    requires LowerWord(word) && LowerWord(arg) && Strings.IsWideSpace(sep)
    ensures Strings.Words(word + [sep] + arg, Strings.Unicode) == [word, arg]
  {
    var u := Strings.Unicode;
    var text := word + [sep] + arg;
    assert text == word + ([sep] + arg);
    Strings.TokenOf(word, [sep] + arg, u);
    assert text[0] == word[0] && text[|word|..] == [sep] + arg;
    assert ([sep] + arg)[1..] == arg;
    Strings.WordsOfJoin([arg], u);
  }

  /**
   * Lower-case letters, the information separator U+001C and the no-break
   * space: what `clean_input`, `clean_command` and a byte-string split all
   * keep.
   */
  predicate PlainChar(c: char)
  {
    'a' <= c <= 'z' || c == '\U{1C}' || c == '\U{A0}'
  }

  lemma PlainCharKept(c: char)
    requires PlainChar(c)
    ensures !Smart(c) && c !in PUNCTUATION && Strings.LowerChar(c) == c && !Strings.SpaceIn(Strings.Bytes, c)
  {
  }

  /** Text of plain characters is its own cleaned input and cleaned command. */
  lemma PlainClean(text: string)
    requires forall i :: 0 <= i < |text| ==> PlainChar(text[i])
    ensures CleanInput(text) == text && CleanCommand(text) == text
  {
    forall i | 0 <= i < |text|
      ensures !Smart(text[i]) && text[i] !in PUNCTUATION && Strings.LowerChar(text[i]) == text[i]
    {
      PlainCharKept(text[i]);
    }
    CleanInputPlain(text);
    assert Strings.Lower(text) == text;
    StripNothing(text);
  }

  /** Text of plain characters is one byte-string word. */
  lemma PlainOneWord(text: string)
    requires |text| > 0 && forall i :: 0 <= i < |text| ==> PlainChar(text[i])
    ensures Strings.Words(text, Strings.Bytes) == [text]
  {
    forall i | 0 <= i < |text|
      ensures !Strings.SpaceIn(Strings.Bytes, text[i])
    {
      PlainCharKept(text[i]);
    }
    Strings.WordsOfJoin([text], Strings.Bytes);
  }

  /** A command and an argument joined by further unicode whitespace pass `is_command`. */
  lemma WideSpacePasses(word: string, sep: char, arg: string, commands: set<string>)
    requires LowerWord(word) && LowerWord(arg) && Strings.IsWideSpace(sep) && word in commands
    ensures IsCommand(word + [sep] + arg, commands) == Ok(true)
  {
    SplitAtWideSpace(word, sep, arg);
    StripNothing(word);
    assert Strings.Lower(word) == word;
  }

  /** Plain text that shlex reads as one token parses as a key of its own, or fails to encode. */
  lemma PlainParses(text: string, tokenize: Tokenizer)
    requires |text| > 0 && forall i :: 0 <= i < |text| ==> PlainChar(text[i])
    requires tokenize(text).None? || tokenize(text) == Some([text])
    ensures ParseCommand(text, tokenize) == if Strings.Ascii(text) then Ok((text, [])) else Err(UNICODE_DECODE_ERROR)
  {
    PlainClean(text);
    PlainOneWord(text);
    assert Split(CleanInput(text), tokenize) == [text];
  }

  /**
   * As written, an information separator (U+001C) between a command and
   * its argument passes `is_command`, whose unicode split breaks there, but
   * neither shlex nor the byte-string split does, so `parse_command` reads
   * the whole text as one key that names no command and
   * `self.commands[key]` raises KeyError.
   */
  lemma SeparatorUnknownKey(word: string, arg: string, commands: set<string>, tokenize: Tokenizer)
    requires LowerWord(word) && LowerWord(arg) && word in commands
    requires forall key :: key in commands ==> Strings.NoSpace(key, Strings.Unicode)
    requires var text := word + ['\U{1C}'] + arg; tokenize(text).None? || tokenize(text) == Some([text])
    ensures var text := word + ['\U{1C}'] + arg;
      && IsCommand(text, commands) == Ok(true)
      && ParseCommand(text, tokenize) == Ok((text, []))
      && text !in commands
  {
    var text := word + ['\U{1C}'] + arg;
    WideSpacePasses(word, '\U{1C}', arg, commands);
    LowerWordAscii(word);
    LowerWordAscii(arg);
    Strings.AsciiAppend(word, ['\U{1C}']);
    Strings.AsciiAppend(word + ['\U{1C}'], arg);
    assert forall i :: 0 <= i < |text| ==> PlainChar(text[i]);
    PlainParses(text, tokenize);
    assert text[|word|] == '\U{1C}' && Strings.SpaceIn(Strings.Unicode, text[|word|]);
  }

  /**
   * As written, a no-break space between a command and its argument passes
   * `is_command` too, but the first token `parse_command` gets then holds
   * the no-break space's UTF-8 bytes, and `clean_command` raises
   * UnicodeDecodeError before any command is looked up.
   */
  lemma NoBreakSpaceDecodeError(word: string, arg: string, commands: set<string>, tokenize: Tokenizer)
    requires LowerWord(word) && LowerWord(arg) && word in commands
    requires var text := word + ['\U{A0}'] + arg; tokenize(text).None? || tokenize(text) == Some([text])
    ensures var text := word + ['\U{A0}'] + arg;
      && IsCommand(text, commands) == Ok(true)
      && ParseCommand(text, tokenize) == Err(UNICODE_DECODE_ERROR)
  {
    var text := word + ['\U{A0}'] + arg;
    WideSpacePasses(word, '\U{A0}', arg, commands);
    assert forall i :: 0 <= i < |text| ==> PlainChar(text[i]);
    PlainParses(text, tokenize);
    assert text[|word|] == '\U{A0}';
  }

  /**
   * Split as `parse_command` splits, `is_command` says yes exactly when
   * `parse_command` yields a key of the command table, whatever the text
   * holds, as long as shlex agrees with the whitespace split (or fails).
   */
  lemma CleanedIsCommandFindsParsedKey(text: string, commands: set<string>, tokenize: Tokenizer)
    requires var cleaned := CleanInput(text); tokenize(cleaned).None? || tokenize(cleaned) == Some(Strings.Words(cleaned, Strings.Bytes))
    ensures IsCommandCleaned(text, commands) == Ok(true) <==> ParseCommand(text, tokenize).Ok? && ParseCommand(text, tokenize).value.0 in commands
  {
  }

  /**
   * The corrected check only ever says yes where the check as written does,
   * and on text without typographic quotes, dashes or non-ASCII whitespace
   * it gives the same answer whenever the command names are ASCII.
   */
  lemma CleanedAgreesOnPlainText(text: string, commands: set<string>)
    requires forall i :: 0 <= i < |text| ==> !Smart(text[i]) && !Strings.IsWideSpace(text[i])
    ensures IsCommandCleaned(text, commands) == Ok(true) ==> IsCommand(text, commands) == Ok(true)
    ensures (forall key :: key in commands ==> Strings.Ascii(key)) ==> IsCommandCleaned(text, commands) == IsCommand(text, commands)
  {
    CleanInputPlain(text);
    Strings.WordsAgree(text);
    var words := Strings.Words(text, Strings.Bytes);
    if |words| > 0 {
      CleanCommandAscii(words[0]);
    }
  }

  // ------------------------------------------------------------- users

  /** `valid_user(username)`: exactly one whitespace-separated word, and a known user name. */
  predicate ValidUser(username: string, names: set<string>)
  {
    |Strings.Words(username, Strings.Bytes)| == 1 && username in names
  }

  /** A name without whitespace is valid exactly when it is known. */
  lemma PlainNameValid(username: string, names: set<string>)
    requires |username| > 0 && Strings.NoSpace(username, Strings.Bytes)
    ensures ValidUser(username, names) <==> username in names
  {
    Strings.WordsOfJoin([username], Strings.Bytes);
  }

  /** Two words separated by a space are never a valid user, known or not. */
  lemma TwoWordsInvalid(a: string, b: string, names: set<string>)
    requires |a| > 0 && Strings.NoSpace(a, Strings.Bytes) && |b| > 0 && Strings.NoSpace(b, Strings.Bytes)
    ensures !ValidUser(a + " " + b, names)
  {
    assert Strings.Join([a, b], " ") == a + " " + b by {
      assert [a, b][1..] == [b];
    }
    Strings.WordsOfJoin([a, b], Strings.Bytes);
  }

  // ------------------------------------------------------ routing alerts

  /** The task writes among a user's effects, in order. */
  function Writes(es: seq<U.Effect>): seq<T.Write>
  {
    if |es| == 0 then []
    else Writes(es[..|es| - 1]) + (if es[|es| - 1].Store? then [es[|es| - 1].write] else [])
  }

  lemma {:induction false} WritesAppend(a: seq<U.Effect>, b: seq<U.Effect>)
    ensures Writes(a + b) == Writes(a) + Writes(b)
  {
    if |b| == 0 {
      assert a + b == a;
    } else {
      assert (a + b)[..|a + b| - 1] == a + b[..|b| - 1];
      WritesAppend(a, b[..|b| - 1]);
    }
  }

  lemma {:induction false} WritesOfStores(ws: seq<T.Write>)
    ensures Writes(U.Stores(ws)) == ws
  {
    if |ws| > 0 {
      assert U.Stores(ws)[..|ws| - 1] == U.Stores(ws[..|ws| - 1]);
      WritesOfStores(ws[..|ws| - 1]);
    }
  }

  /** `greet_user`: the greeting, addressed by the user's preferred name. */
  function Greeting(info: U.UserInfo): U.Effect
  {
    U.Formatted("greeting", U.GetName(info))
  }

  /** The greeting a newly active user gets, if `greet`. */
  function Greet(d: U.UserData, info: U.UserInfo, greet: bool): U.UserData
  {
    if greet then d.(effects := d.effects + [Greeting(info)]) else d
  }

  /**
   * `_add_task` for a known user who is not blacklisted, as written: the user
   * is greeted if newly active, the task is queued (which escalates it at
   * once when its title is ignored), and then the task is set in progress.
   */
  function QueueThenMark(d: U.UserData, info: U.UserInfo, task: T.Task, now: int, greet: bool): U.UserData
  {
    var queued := U.ApplyAddTask(Greet(d, info, greet), task, info.name, now);
    queued.(effects := queued.effects + U.Stores(T.SetInProgress(task)))
  }

  /** The corrected order: the task is set in progress before it is queued, so an escalation is the last status written. */
  function MarkThenQueue(d: U.UserData, info: U.UserInfo, task: T.Task, now: int, greet: bool): U.UserData
  {
    var g := Greet(d, info, greet);
    U.ApplyAddTask(g.(effects := g.effects + U.Stores(T.SetInProgress(task))), task, info.name, now)
  }

  /** No queued task has an ignored title, as after every `_update_tasks`. */
  predicate CleanQueue(d: U.UserData, name: string, now: int)
  {
    forall i :: 0 <= i < |d.tasks| ==> d.tasks[i].title !in T.Ignored(d.ignored, name, now)
  }

  /**
   * As written, an alert whose title the user has ignored is escalated and
   * left out of the queue, yet the status stored for it last is INPROGRESS:
   * no user will ever answer it, and it is not in the verification queue.
   */
  lemma IgnoredTaskLeftInProgress(d: U.UserData, info: U.UserInfo, task: T.Task, now: int, greet: bool, initial: T.Status)
    requires CleanQueue(d, info.name, now)
    requires task.title in T.Ignored(d.ignored, info.name, now)
    ensures var r := QueueThenMark(d, info, task, now, greet);
      && task !in r.tasks
      && T.StatusWrite(task.hash, T.Verification) in Writes(r.effects)
      && T.StoredStatus(Writes(r.effects), task.hash, initial) == T.InProgress
  {
    var ig := T.Ignored(d.ignored, info.name, now);
    var g := Greet(d, info, greet);
    U.AddTaskQueues(g, task, info.name, now);
    var escalated := T.SetVerifying(task.(comment := ig[task.title]));
    var r := QueueThenMark(d, info, task, now, greet);
    assert r.effects == g.effects + U.Stores(escalated) + U.Stores(T.SetInProgress(task));
    WritesAppend(g.effects + U.Stores(escalated), U.Stores(T.SetInProgress(task)));
    WritesAppend(g.effects, U.Stores(escalated));
    WritesOfStores(escalated);
    WritesOfStores(T.SetInProgress(task));
    assert Writes(r.effects) == Writes(g.effects) + escalated + [T.StatusWrite(task.hash, T.InProgress)];
    assert Writes(r.effects)[|Writes(g.effects)|] == T.StatusWrite(task.hash, T.Verification);
    T.LastStatusWriteWins(Writes(g.effects) + escalated, task.hash, T.InProgress, [], initial);
    assert Writes(g.effects) + escalated + [T.StatusWrite(task.hash, T.InProgress)] + [] == Writes(r.effects);
    KeptNotIgnored(g, task, info.name, now);
  }

  /** With a clean queue, a task whose title is ignored is not in the queue after `add_task`. */
  lemma KeptNotIgnored(d: U.UserData, task: T.Task, name: string, now: int)
    requires CleanQueue(d, name, now)
    requires task.title in T.Ignored(d.ignored, name, now)
    ensures task !in U.ApplyAddTask(d, task, name, now).tasks
  {
    U.AddTaskQueues(d, task, name, now);
    assert forall i :: 0 <= i < |d.tasks| ==> d.tasks[i] != task;
  }

  /** The writes of the corrected order when the title is ignored: INPROGRESS, then the escalation. */
  lemma MarkThenQueueIgnored(g: U.UserData, task: T.Task, name: string, now: int, initial: T.Status)
    requires CleanQueue(g, name, now)
    requires task.title in T.Ignored(g.ignored, name, now)
    ensures var r := U.ApplyAddTask(g.(effects := g.effects + U.Stores(T.SetInProgress(task))), task, name, now);
      task !in r.tasks && T.StoredStatus(Writes(r.effects), task.hash, initial) == T.Verification
  {
    var ig := T.Ignored(g.ignored, name, now);
    var marked := g.effects + U.Stores(T.SetInProgress(task));
    var g' := g.(effects := marked);
    U.AddTaskQueues(g', task, name, now);
    KeptNotIgnored(g', task, name, now);
    var escalated := T.SetVerifying(task.(comment := ig[task.title]));
    var r := U.ApplyAddTask(g', task, name, now);
    assert r.effects == marked + U.Stores(escalated);
    WritesAppend(marked, U.Stores(escalated));
    WritesOfStores(escalated);
    assert Writes(r.effects) == Writes(marked) + [T.StatusWrite(task.hash, T.Verification)] + [escalated[1]];
    T.LastStatusWriteWins(Writes(marked), task.hash, T.Verification, [escalated[1]], initial);
  }

  /** The writes of the corrected order when the title is not ignored: the task is queued, INPROGRESS last. */
  lemma MarkThenQueueKept(g: U.UserData, task: T.Task, name: string, now: int, initial: T.Status)
    requires CleanQueue(g, name, now)
    requires task.title !in T.Ignored(g.ignored, name, now)
    ensures var r := U.ApplyAddTask(g.(effects := g.effects + U.Stores(T.SetInProgress(task))), task, name, now);
      task in r.tasks && T.StoredStatus(Writes(r.effects), task.hash, initial) == T.InProgress
  {
    var marked := g.effects + U.Stores(T.SetInProgress(task));
    var g' := g.(effects := marked);
    U.AddTaskQueues(g', task, name, now);
    var r := U.ApplyAddTask(g', task, name, now);
    assert r.tasks[|r.tasks| - 1] == task;
    WritesAppend(g.effects, U.Stores(T.SetInProgress(task)));
    WritesOfStores(T.SetInProgress(task));
    assert Writes(r.effects) == Writes(g.effects) + [T.StatusWrite(task.hash, T.InProgress)] + [];
    T.LastStatusWriteWins(Writes(g.effects), task.hash, T.InProgress, [], initial);
  }

  /**
   * In the corrected order, the status stored last is VERIFICATION exactly
   * when the alert's title is ignored (and the alert left the queue), and
   * INPROGRESS exactly when it waits in the user's queue.
   */
  lemma MarkThenQueueStatus(d: U.UserData, info: U.UserInfo, task: T.Task, now: int, greet: bool, initial: T.Status)
    requires CleanQueue(d, info.name, now)
    ensures var r := MarkThenQueue(d, info, task, now, greet);
      var ignored := task.title in T.Ignored(d.ignored, info.name, now);
      && (task in r.tasks <==> !ignored)
      && T.StoredStatus(Writes(r.effects), task.hash, initial) == (if ignored then T.Verification else T.InProgress)
  {
    var g := Greet(d, info, greet);
    assert g.tasks == d.tasks && g.ignored == d.ignored;
    if task.title in T.Ignored(d.ignored, info.name, now) {
      MarkThenQueueIgnored(g, task, info.name, now, initial);
    } else {
      MarkThenQueueKept(g, task, info.name, now, initial);
    }
  }

  /** The writes `_add_task` makes for tasks no user takes: invalid users, then blacklisted ones, escalated with that comment. */
  function Escalations(tasks: seq<T.Task>, names: set<string>, blacklisted: set<string>): seq<T.Write>
  {
    if |tasks| == 0 then []
    else
      var t := tasks[|tasks| - 1];
      Escalations(tasks[..|tasks| - 1], names, blacklisted)
      + (if !ValidUser(t.username, names) then T.SetVerifying(t.(comment := "invalid user"))
         else if t.username in blacklisted then T.SetVerifying(t.(comment := "blacklisted"))
         else [])
  }

  /** The ids of the users who take some of `tasks`: known by name in `byName` and not in `listed`. */
  function TakerIds(tasks: seq<T.Task>, byName: map<string, U.User>, listed: set<string>): set<string>
  {
    if |tasks| == 0 then {}
    else
      var t := tasks[|tasks| - 1];
      TakerIds(tasks[..|tasks| - 1], byName, listed)
      + (if ValidUser(t.username, byName.Keys) && t.username !in listed then {byName[t.username].info.id} else {})
  }

  /** A batch's escalations and takers grow one task at a time. */
  lemma BatchSnoc(tasks: seq<T.Task>, i: nat, byName: map<string, U.User>, listed: set<string>)
    requires i < |tasks|
    ensures Escalations(tasks[..i + 1], byName.Keys, listed) == Escalations(tasks[..i], byName.Keys, listed) + Escalations([tasks[i]], byName.Keys, listed)
    ensures TakerIds(tasks[..i + 1], byName, listed) == TakerIds(tasks[..i], byName, listed) + TakerIds([tasks[i]], byName, listed)
  {
    assert tasks[..i + 1][..i] == tasks[..i] && [tasks[i]][..0] == [];
  }

  /**
   * What `_add_task` works on: each user's state, by user name, the ignored
   * table the users share, and the ids of the active users.
   */
  datatype Batch = Batch(data: map<string, U.UserData>, table: T.IgnoreTable, active: set<string>)

  /** Each user name's user. */
  function Infos(byName: map<string, U.User>): (r: map<string, U.UserInfo>)
    ensures r.Keys == byName.Keys && forall n :: n in byName ==> r[n] == byName[n].info
  {
    map n | n in byName :: byName[n].info
  }

  /**
   * `_add_task(task)` (in the corrected order) on a `Batch`: a task for a
   * valid user name not in `listed` goes to that user, greeted when its id
   * was not active, and its id becomes active; any other task leaves the
   * users, the table and the active ids as they were. `infos` gives each
   * user name's user.
   */
  function AdmitIn(b: Batch, task: T.Task, infos: map<string, U.UserInfo>, listed: set<string>, now: int): (r: Batch)
    requires infos.Keys == b.data.Keys
    ensures r.data.Keys == b.data.Keys
    ensures forall n :: n in b.data && n != task.username ==> r.data[n] == b.data[n]
  {
    if ValidUser(task.username, infos.Keys) && task.username !in listed then
      var info := infos[task.username];
      var d := MarkThenQueue(b.data[task.username].(ignored := b.table), info, task, now, info.id !in b.active);
      Batch(b.data[task.username := d], d.ignored, b.active + {info.id})
    else b
  }

  /** A task no user takes leaves the batch state as it was. */
  lemma AdmitInSkips(b: Batch, task: T.Task, infos: map<string, U.UserInfo>, listed: set<string>, now: int)
    requires infos.Keys == b.data.Keys
    requires !ValidUser(task.username, infos.Keys) || task.username in listed
    ensures AdmitIn(b, task, infos, listed, now) == b
  {
  }

  /** A task a user takes changes that user's state, the table and the active ids, and nothing else. */
  lemma AdmitInTakes(b: Batch, task: T.Task, infos: map<string, U.UserInfo>, listed: set<string>, now: int)
    requires infos.Keys == b.data.Keys
    requires ValidUser(task.username, infos.Keys) && task.username !in listed
    ensures var info := infos[task.username];
      var d := MarkThenQueue(b.data[task.username].(ignored := b.table), info, task, now, info.id !in b.active);
      var r := AdmitIn(b, task, infos, listed, now);
      && r.data[task.username] == d && r.table == d.ignored && r.active == b.active + {info.id}
  {
  }

  /** The tasks of a batch go through `_add_task` one after the other. */
  function AdmitAll(b: Batch, tasks: seq<T.Task>, infos: map<string, U.UserInfo>, listed: set<string>, now: int): (r: Batch)
    requires infos.Keys == b.data.Keys
    ensures r.data.Keys == b.data.Keys
  {
    if |tasks| == 0 then b
    else AdmitIn(AdmitAll(b, tasks[..|tasks| - 1], infos, listed, now), tasks[|tasks| - 1], infos, listed, now)
  }

  /** One more task of the batch is one more `AdmitIn`. */
  lemma AdmitAllNext(b: Batch, tasks: seq<T.Task>, i: nat, infos: map<string, U.UserInfo>, listed: set<string>, now: int)
    requires infos.Keys == b.data.Keys && i < |tasks|
    ensures AdmitAll(b, tasks[..i + 1], infos, listed, now) == AdmitIn(AdmitAll(b, tasks[..i], infos, listed, now), tasks[i], infos, listed, now)
  {
    assert tasks[..i + 1][..i] == tasks[..i];
  }

  /** A user with no task in the batch keeps its state. */
  lemma {:induction false} AdmitAllUntouched(b: Batch, tasks: seq<T.Task>, infos: map<string, U.UserInfo>, listed: set<string>, now: int, n: string)
    requires infos.Keys == b.data.Keys && n in b.data
    requires forall i :: 0 <= i < |tasks| ==> tasks[i].username != n
    ensures AdmitAll(b, tasks, infos, listed, now).data[n] == b.data[n]
  {
    if |tasks| > 0 {
      var init := tasks[..|tasks| - 1];
      assert forall i :: 0 <= i < |init| ==> init[i] == tasks[i];
      AdmitAllUntouched(b, init, infos, listed, now, n);
    }
  }

  /** The ids active after a batch are those active before and the ids of the users who took a task (`TakerIds`). */
  lemma {:induction false} AdmitAllActive(b: Batch, tasks: seq<T.Task>, infos: map<string, U.UserInfo>, listed: set<string>, now: int,
                                          byName: map<string, U.User>)
    requires infos.Keys == b.data.Keys && byName.Keys == infos.Keys
    requires forall n :: n in byName ==> byName[n].info == infos[n]
    ensures AdmitAll(b, tasks, infos, listed, now).active == b.active + TakerIds(tasks, byName, listed)
  {
    if |tasks| > 0 {
      AdmitAllActive(b, tasks[..|tasks| - 1], infos, listed, now, byName);
    }
  }

  /** A user becomes active through a batch exactly when one of its tasks goes to that user. */
  lemma {:induction false} TakerIdsExactly(tasks: seq<T.Task>, byName: map<string, U.User>, listed: set<string>, id: string)
    ensures id in TakerIds(tasks, byName, listed) <==>
      exists i :: 0 <= i < |tasks| && ValidUser(tasks[i].username, byName.Keys) && tasks[i].username !in listed
                  && byName[tasks[i].username].info.id == id
  {
    if |tasks| > 0 {
      var init := tasks[..|tasks| - 1];
      TakerIdsExactly(init, byName, listed, id);
      assert forall i :: 0 <= i < |init| ==> init[i] == tasks[i];
    }
  }

  // -------------------------------------------------------- commands

  /** A message that is given and not empty, as `if cmd['success_msg']:` tests it. */
  predicate IsSet(m: Option<string>)
  {
    m.Some? && m.value != ""
  }

  /** The reply `handle_command` sends after running a command. */
  function Reply(c: C.CommandInfo, truthy: bool): (r: seq<U.Effect>)
    ensures |r| <= 1
    ensures |r| == 1 <==> (truthy && IsSet(c.successMsg)) || (!truthy && IsSet(c.failureMsg))
    ensures |r| == 1 && truthy ==> r[0] == U.Say(c.successMsg.value)
    ensures |r| == 1 && !truthy ==> r[0] == U.Say(c.failureMsg.value)
  {
    if truthy then (if IsSet(c.successMsg) then [U.Say(c.successMsg.value)] else [])
    else (if IsSet(c.failureMsg) then [U.Say(c.failureMsg.value)] else [])
  }

  /** The exception `self.commands[key]` raises for a key that names no command. */
  const KEY_ERROR: string := "KeyError"

  /**
   * What the command function `fn` returns for the user `name` with the
   * pending task `pending`, when `listed` is the blacklist. `hi`, `help`,
   * `positive_response` and `negative_response` return nothing; `test`
   * returns True.
   */
  function CommandOutcome(fn: C.Fn, args: seq<string>, pending: Option<T.Task>, name: string, listed: set<string>): C.Outcome
  {
    match fn
    case AddToBlacklist => C.Returned(name !in listed)
    case RemoveFromBlacklist => C.Returned(name in listed)
    case Ignore => C.IgnoreOutcome(C.PlanIgnore(args, pending))
    case Test => C.Returned(true)
    case _ => C.Returned(false)
  }

  /** The blacklist after the command function `fn` ran for the user `name`. */
  function ListedAfter(fn: C.Fn, name: string, listed: set<string>): set<string>
  {
    match fn
    case AddToBlacklist => listed + {name}
    case RemoveFromBlacklist => listed - {name}
    case _ => listed
  }

  /** The ignored table after the command function `fn` ran for the user `name` at time `now`. */
  function IgnoredAfter(fn: C.Fn, args: seq<string>, pending: Option<T.Task>, name: string, table: T.IgnoreTable, now: int): T.IgnoreTable
  {
    var p := C.PlanIgnore(args, pending);
    if fn == C.Ignore && p.IgnoreFor? then T.IgnoreTask(table, name, p.title, "ignored", p.seconds, now) else table
  }

  /** An exception escapes `handle_command`; otherwise the function's value is read as truthy or falsy. */
  function Handled(out: C.Outcome): Result<bool, string>
  {
    match out
    case Raised(e) => Err(e)
    case Returned(t) => Ok(t)
  }

  // ------------------------------------------------------ stepping users

  /** Part way through `handle_users`: each user's state by id, and the ignored table the steps share. */
  datatype Walk = Walk(data: map<string, U.UserData>, table: T.IgnoreTable)

  /** The user `id`, called `name`, takes its step with the shared ignored table. */
  function StepIn(w: Walk, id: string, name: string, env: U.Env): (r: Walk)
    requires id in w.data
    ensures r.data.Keys == w.data.Keys
    ensures forall other :: other in w.data && other != id ==> r.data[other] == w.data[other]
  {
    var d := U.UserStep(w.data[id].(ignored := w.table), name, env);
    Walk(w.data[id := d], d.ignored)
  }

  /** The users of `order` take their steps one after the other; `names` gives each id's user name. */
  function StepAll(w: Walk, order: seq<string>, names: map<string, string>, envOf: string -> U.Env): (r: Walk)
    requires forall id :: id in order ==> id in w.data && id in names
    ensures r.data.Keys == w.data.Keys
  {
    if |order| == 0 then w
    else
      var id := order[|order| - 1];
      StepIn(StepAll(w, order[..|order| - 1], names, envOf), id, names[id], envOf(id))
  }

  /** Walking one user further is one more `StepIn`. */
  lemma StepAllNext(w: Walk, order: seq<string>, names: map<string, string>, envOf: string -> U.Env, id: string)
    requires forall id :: id in order ==> id in w.data && id in names
    requires id in w.data && id in names
    ensures StepAll(w, order + [id], names, envOf) == StepIn(StepAll(w, order, names, envOf), id, names[id], envOf(id))
  {
    assert (order + [id])[..|order|] == order;
  }

  /** Two states that agree but for the ignored table agree once given the same table. */
  lemma Retable(d: U.UserData, e: U.UserData, table: T.IgnoreTable)
    requires d.(ignored := map[]) == e.(ignored := map[]) && d.ignored == table
    ensures d == e.(ignored := table)
  {
  }

  /** A user the walk has not reached yet keeps its state. */
  lemma {:induction false} StepAllSkips(w: Walk, order: seq<string>, names: map<string, string>, envOf: string -> U.Env, id: string)
    requires forall id :: id in order ==> id in w.data && id in names
    requires id in w.data && id !in order
    ensures StepAll(w, order, names, envOf).data[id] == w.data[id]
  {
    if |order| > 0 {
      var init := order[..|order| - 1];
      assert id !in init by {
        assert forall i :: 0 <= i < |init| ==> init[i] == order[i];
      }
      StepAllSkips(w, init, names, envOf, id);
    }
  }

  /**
   * A user visited once takes exactly one step: its state afterwards is
   * `UserStep` of its state at the start, read with the ignored table left
   * by the users visited before it.
   */
  lemma {:induction false} StepAllVisitsOnce(w: Walk, order: seq<string>, names: map<string, string>, envOf: string -> U.Env, k: nat)
    requires forall id :: id in order ==> id in w.data && id in names
    requires k < |order| && order[k] !in order[..k] && order[k] !in order[k + 1..]
    ensures var before := StepAll(w, order[..k], names, envOf);
      StepAll(w, order, names, envOf).data[order[k]]
        == U.UserStep(w.data[order[k]].(ignored := before.table), names[order[k]], envOf(order[k]))
    decreases |order|
  {
    var id := order[k];
    if k == |order| - 1 {
      StepAllSkips(w, order[..k], names, envOf, id);
    } else {
      var init := order[..|order| - 1];
      assert init[..k] == order[..k] && init[k] == id;
      assert init[k + 1..] == order[k + 1..|order| - 1];
      assert id !in init[k + 1..];
      StepAllVisitsOnce(w, init, names, envOf, k);
      assert order[|order| - 1] in order[k + 1..];
    }
  }

  /** `SecurityBot`. */
  class SecurityBot {
    /** `users`: every team member, by chat id. */
    var users: map<string, U.User>
    /** `users_by_name`: the same users, by user name. */
    var usersByName: map<string, U.User>
    /** `active_users`: the users with outstanding tasks, by chat id. */
    var activeUsers: map<string, U.User>
    const blacklist: Blacklist.SqlBlacklist
    /** The ignored table. */
    var ignored: T.IgnoreTable
    /** Task writes for alerts no user takes. */
    var writes: seq<T.Write>
    /** The loaded command table. */
    const commands: map<string, C.CommandInfo>
    /** The `help_header`, `help_usage` and `help_footer` messages. */
    const helpHeader: string
    const helpUsage: string
    const helpFooter: string
    const tokenize: Tokenizer
    /** Every user object the bot made. */
    ghost const population: set<U.User>
    /** Their state machines. */
    ghost const machines: set<object>

    ghost function Repr(): set<object>
    {
      population + machines
    }

    ghost predicate Valid()
      reads this, Repr()
    {
      && (forall id :: id in users ==> users[id] in population && users[id].info.id == id)
      && (forall n :: n in usersByName ==> usersByName[n] in population && usersByName[n].info.name == n)
      && (forall id :: id in activeUsers ==> activeUsers[id] in population && activeUsers[id].info.id == id)
      && (forall u :: u in population ==> u.fsm in machines && u.Valid())
      && (forall u, v :: u in population && v in population && u != v ==> u.fsm != v.fsm)
    }

    /**
     * `__init__` with `_populate_users`: one user per team member, filed by
     * id and by name (a later member with the same id or name replaces an
     * earlier one), and no active users.
     */
    constructor (members: seq<U.UserInfo>, blacklistRows: seq<seq<string>>, commands: map<string, C.CommandInfo>,
                 ignored: T.IgnoreTable, helpHeader: string, helpUsage: string, helpFooter: string, tokenize: Tokenizer)
      requires forall i :: 0 <= i < |blacklistRows| ==> |blacklistRows[i]| > 0
      ensures Valid()
      ensures forall id :: id in users <==> exists i :: 0 <= i < |members| && members[i].id == id
      ensures forall n :: n in usersByName <==> exists i :: 0 <= i < |members| && members[i].name == n
      ensures forall u :: u in population ==> u.Data(map[]) == U.Initial(map[]) && u.steps == 0
      ensures activeUsers == map[] && writes == [] && this.ignored == ignored && this.commands == commands
      ensures forall n :: n in blacklist.names <==> exists i :: 0 <= i < |blacklistRows| && blacklistRows[i][0] == n
    {
      var byId, byName, made := PopulateUsers(members);
      population := made;
      machines := set u | u in made :: u.fsm;
      users := byId;
      usersByName := byName;
      activeUsers := map[];
      blacklist := new Blacklist.SqlBlacklist(blacklistRows);
      this.ignored := ignored;
      writes := [];
      this.commands := commands;
      this.helpHeader := helpHeader;
      this.helpUsage := helpUsage;
      this.helpFooter := helpFooter;
      this.tokenize := tokenize;
    }

    /** `_populate_users`: a fresh user per member, filed under its id and its name. */
    static method PopulateUsers(members: seq<U.UserInfo>)
      returns (byId: map<string, U.User>, byName: map<string, U.User>, ghost made: set<U.User>)
      ensures Indexed(members, |members|, byId, byName, made)
      ensures forall u :: u in made ==> fresh(u) && fresh(u.fsm) && Pristine(u)
      ensures forall u, v :: u in made && v in made && u != v ==> u.fsm != v.fsm
    {
      byId, byName, made := map[], map[], {};
      var i := 0;
      while i < |members|
        invariant 0 <= i <= |members|
        invariant Indexed(members, i, byId, byName, made)
        invariant forall u :: u in made ==> fresh(u) && fresh(u.fsm) && Pristine(u)
        invariant forall u, v :: u in made && v in made && u != v ==> u.fsm != v.fsm
      {
        byId, byName, made := Enrol(members, i, byId, byName, made);
        i := i + 1;
      }
    }

    /** One turn of `_populate_users`: a fresh user for the `i`-th member, filed under its id and its name. */
    static method Enrol(members: seq<U.UserInfo>, i: nat, byId: map<string, U.User>, byName: map<string, U.User>, ghost made: set<U.User>)
      returns (byId': map<string, U.User>, byName': map<string, U.User>, ghost made': set<U.User>)
      requires i < |members| && Indexed(members, i, byId, byName, made)
      requires forall u, v :: u in made && v in made && u != v ==> u.fsm != v.fsm
      ensures Indexed(members, i + 1, byId', byName', made')
      ensures forall u :: u in made' ==> u in made || (fresh(u) && fresh(u.fsm) && Pristine(u))
      ensures forall u, v :: u in made' && v in made' && u != v ==> u.fsm != v.fsm
    {
      var u := new U.User(members[i]);
      IndexedSnoc(members, i, byId, byName, made, u);
      byId' := byId[members[i].id := u];
      byName' := byName[members[i].name := u];
      made' := made + {u};
    }

    /** A user as `User(...)` leaves it: in its initial state, with no step taken. */
    static ghost predicate Pristine(u: U.User)
      reads u, u.fsm
    {
      u.Valid() && u.Data(map[]) == U.Initial(map[]) && u.steps == 0
    }

    /**
     * The users in `made` are filed by id in `byId` and by name in `byName`
     * for the first `i` members: a key is there exactly when some member has
     * it, and it leads to a user with that key.
     */
    static ghost predicate Indexed(members: seq<U.UserInfo>, i: nat, byId: map<string, U.User>, byName: map<string, U.User>, made: set<U.User>)
      requires i <= |members|
    {
      && (forall id :: id in byId <==> exists j :: 0 <= j < i && members[j].id == id)
      && (forall n :: n in byName <==> exists j :: 0 <= j < i && members[j].name == n)
      && (forall id :: id in byId ==> byId[id] in made && byId[id].info.id == id)
      && (forall n :: n in byName ==> byName[n] in made && byName[n].info.name == n)
    }

    /** Filing one more member's user keeps the index. */
    static lemma IndexedSnoc(members: seq<U.UserInfo>, i: nat, byId: map<string, U.User>, byName: map<string, U.User>, made: set<U.User>, u: U.User)
      requires i < |members| && Indexed(members, i, byId, byName, made) && u.info == members[i]
      ensures Indexed(members, i + 1, byId[members[i].id := u], byName[members[i].name := u], made + {u})
    {
      var byId', byName' := byId[members[i].id := u], byName[members[i].name := u];
      forall id ensures id in byId' <==> exists j :: 0 <= j < i + 1 && members[j].id == id {
        if id != members[i].id {
          assert id in byId' <==> id in byId;
        }
      }
      forall n ensures n in byName' <==> exists j :: 0 <= j < i + 1 && members[j].name == n {
        if n != members[i].name {
          assert n in byName' <==> n in byName;
        }
      }
    }

    /** `user_lookup(id)`: the user with that chat id, or SecurityBotException. */
    function UserLookup(id: string): (r: Result<U.User, string>)
      requires Valid()
      reads this, Repr()
      ensures r.Ok? <==> id in users
      ensures r.Ok? ==> r.value in population && r.value.info.id == id
      ensures r.Err? ==> r.error == "User " + id + " not found"
    {
      if id !in users then Err("User " + id + " not found") else Ok(users[id])
    }

    /** `user_lookup_by_name(username)`: the user with that name, or SecurityBotException. */
    function UserLookupByName(username: string): (r: Result<U.User, string>)
      requires Valid()
      reads this, Repr()
      ensures r.Ok? <==> username in usersByName
      ensures r.Ok? ==> r.value in population && r.value.info.name == username
      ensures r.Err? ==> r.error == "User " + username + " not found"
    {
      if username !in usersByName then Err("User " + username + " not found") else Ok(usersByName[username])
    }

    /** The user a task goes to: known by name and not blacklisted. */
    ghost predicate Takes(task: T.Task)
      reads this, blacklist
    {
      ValidUser(task.username, usersByName.Keys) && task.username !in blacklist.names
    }

    /** The user object `_add_task` may change: the one that takes the task, if any. */
    ghost function Taker(task: T.Task): set<object>
      reads this, blacklist
    {
      if Takes(task) then {usersByName[task.username]} else {}
    }

    /**
     * `_add_task(task)`, as written. A task for an unknown user is escalated
     * with comment 'invalid user', one for a blacklisted user with
     * 'blacklisted'. Otherwise the user becomes active (and is greeted if it
     * was not), the task is queued, and then it is set in progress.
     */
    method AddTask(task: T.Task, now: int)
      requires Valid()
      modifies this, Taker(task)
      ensures Valid()
      ensures users == old(users) && usersByName == old(usersByName)
      ensures !ValidUser(task.username, usersByName.Keys) ==>
                writes == old(writes) + T.SetVerifying(task.(comment := "invalid user"))
                && activeUsers == old(activeUsers) && ignored == old(ignored)
      ensures ValidUser(task.username, usersByName.Keys) && task.username in blacklist.names ==>
                writes == old(writes) + T.SetVerifying(task.(comment := "blacklisted"))
                && activeUsers == old(activeUsers) && ignored == old(ignored)
      ensures Takes(task) ==>
                var u := usersByName[task.username];
                && writes == old(writes)
                && activeUsers == (if u.info.id in old(activeUsers) then old(activeUsers) else old(activeUsers)[u.info.id := u])
                && u.Data(ignored) == QueueThenMark(old(u.Data(ignored)), u.info, task, now, u.info.id !in old(activeUsers))
    {
      if !ValidUser(task.username, usersByName.Keys) {
        Escalate(task, "invalid user");
      } else if blacklist.IsPresent(task.username) {
        Escalate(task, "blacklisted");
      } else {
        Take(usersByName[task.username], task, now);
      }
    }

    /** `_add_task(task)` in the corrected order: set in progress first, then queued. Otherwise as `AddTask`. */
    method AddTaskCorrected(task: T.Task, now: int)
      requires Valid()
      modifies this, Taker(task)
      ensures Valid()
      ensures users == old(users) && usersByName == old(usersByName)
      ensures !Takes(task) ==> activeUsers == old(activeUsers) && ignored == old(ignored)
      ensures writes == old(writes) + Escalations([task], usersByName.Keys, blacklist.names)
      ensures Takes(task) ==>
                var u := usersByName[task.username];
                && activeUsers == (if u.info.id in old(activeUsers) then old(activeUsers) else old(activeUsers)[u.info.id := u])
                && u.Data(ignored) == MarkThenQueue(old(u.Data(ignored)), u.info, task, now, u.info.id !in old(activeUsers))
    {
      assert [task][..0] == [];
      if !ValidUser(task.username, usersByName.Keys) || blacklist.IsPresent(task.username) {
        EscalateCorrected(task);
      } else {
        TakeCorrected(usersByName[task.username], task, now);
      }
    }

    /** `_add_task` for a task no user takes: it is escalated, with the comment its user calls for. */
    method EscalateCorrected(task: T.Task)
      requires !Takes(task)
      modifies this
      ensures users == old(users) && usersByName == old(usersByName) && activeUsers == old(activeUsers) && ignored == old(ignored)
      ensures writes == old(writes) + Escalations([task], usersByName.Keys, blacklist.names)
    {
      assert [task][..0] == [];
      if !ValidUser(task.username, usersByName.Keys) {
        Escalate(task, "invalid user");
      } else {
        Escalate(task, "blacklisted");
      }
    }

    /**
     * `handle_new_tasks` and `recover_in_progress_tasks`: each task in turn
     * goes through `_add_task` (in the corrected order). Every task for a
     * user who takes it makes that user active; the others are escalated.
     * The users' states, the ignored table and the active ids are those the
     * batch leaves when its tasks go through `AdmitIn` one after the other.
     */
    method AddTasks(tasks: seq<T.Task>, now: int)
      requires Valid()
      modifies this, usersByName.Values
      ensures Valid()
      ensures users == old(users) && usersByName == old(usersByName)
      ensures writes == old(writes) + Escalations(tasks, usersByName.Keys, blacklist.names)
      ensures forall id :: id in activeUsers <==> id in old(activeUsers) || id in TakerIds(tasks, usersByName, blacklist.names)
      ensures var b := AdmitAll(old(Admitted()), tasks, Infos(usersByName), blacklist.names, now);
        && ignored == b.table && activeUsers.Keys == b.active
        && forall n :: n in usersByName ==> usersByName[n].Data(map[]) == b.data[n].(ignored := map[])
    {
      ghost var start := Admitted();
      AdmittingStart(tasks, now);
      var i := 0;
      while i < |tasks|
        invariant i <= |tasks|
        invariant Valid()
        invariant users == old(users) && usersByName == old(usersByName)
        invariant Admitting(tasks, i, old(writes), start, now)
      {
        AdmitNext(tasks, i, now, old(writes), start);
        i := i + 1;
      }
      AdmittingEnd(tasks, old(writes), start, now);
    }

    /** The users' states by user name, the ignored table and the active ids. */
    ghost function Admitted(): Batch
      reads this, usersByName.Values, set n | n in usersByName :: usersByName[n].fsm
    {
      Batch(map n | n in usersByName :: usersByName[n].Data(ignored), ignored, activeUsers.Keys)
    }

    /** The users hold the states of `b`, and the bot its ignored table and active ids. */
    ghost predicate Holds(b: Batch)
      reads this, usersByName.Values, set n | n in usersByName :: usersByName[n].fsm
    {
      && b.data.Keys == usersByName.Keys
      && ignored == b.table && activeUsers.Keys == b.active
      && forall n :: n in usersByName ==> usersByName[n].Data(map[]) == b.data[n].(ignored := map[])
    }

    /**
     * The first `i` tasks of the batch went through `_add_task`, starting
     * from the writes `writes0` and the state `start`: their escalations were
     * written, and the users hold the states they leave.
     */
    ghost predicate Admitting(tasks: seq<T.Task>, i: nat, writes0: seq<T.Write>, start: Batch, now: int)
      reads this, blacklist, usersByName.Values, set n | n in usersByName :: usersByName[n].fsm
    {
      && i <= |tasks|
      && writes == writes0 + Escalations(tasks[..i], usersByName.Keys, blacklist.names)
      && start.data.Keys == usersByName.Keys
      && Holds(AdmitAll(start, tasks[..i], Infos(usersByName), blacklist.names, now))
    }

    /** Before the batch, no task went through. */
    lemma AdmittingStart(tasks: seq<T.Task>, now: int)
      ensures Admitting(tasks, 0, writes, Admitted(), now)
    {
      assert tasks[..0] == [];
    }

    /** After the batch, every task went through, and the ids that became active are those of the users who took a task. */
    lemma AdmittingEnd(tasks: seq<T.Task>, writes0: seq<T.Write>, start: Batch, now: int)
      requires Valid() && Admitting(tasks, |tasks|, writes0, start, now)
      ensures writes == writes0 + Escalations(tasks, usersByName.Keys, blacklist.names)
      ensures var b := AdmitAll(start, tasks, Infos(usersByName), blacklist.names, now);
        && ignored == b.table && activeUsers.Keys == b.active
        && forall n :: n in usersByName ==> usersByName[n].Data(map[]) == b.data[n].(ignored := map[])
      ensures forall id :: id in activeUsers <==> id in start.active || id in TakerIds(tasks, usersByName, blacklist.names)
    {
      assert tasks[..|tasks|] == tasks;
      AdmitAllActive(start, tasks, Infos(usersByName), blacklist.names, now, usersByName);
    }

    /** The next task of the batch goes through `_add_task` (in the corrected order). */
    method AdmitNext(tasks: seq<T.Task>, i: nat, now: int, ghost writes0: seq<T.Write>, ghost start: Batch)
      requires Valid() && i < |tasks| && Admitting(tasks, i, writes0, start, now)
      modifies this, usersByName.Values
      ensures Valid()
      ensures users == old(users) && usersByName == old(usersByName)
      ensures Admitting(tasks, i + 1, writes0, start, now)
    {
      ghost var names, bl, byName := usersByName.Keys, blacklist.names, usersByName;
      ghost var b := AdmitAll(start, tasks[..i], Infos(byName), bl, now);
      AdmitAllNext(start, tasks, i, Infos(byName), bl, now);
      BatchSnoc(tasks, i, byName, bl);
      Util.AppendAssoc(writes0, Escalations(tasks[..i], names, bl), Escalations([tasks[i]], names, bl));
      Admit(tasks[i], now, b, AdmitAll(start, tasks[..i + 1], Infos(byName), bl, now));
    }

    /**
     * `AddTaskCorrected`, seen from the loop over a batch of tasks: the
     * escalation, if any, is written back, and the users now hold the states
     * of `b` after `AdmitIn`.
     */
    method Admit(task: T.Task, now: int, ghost b: Batch, ghost next: Batch)
      requires Valid() && Holds(b)
      requires next == AdmitIn(b, task, Infos(usersByName), blacklist.names, now)
      modifies this, usersByName.Values
      ensures Valid()
      ensures users == old(users) && usersByName == old(usersByName)
      ensures writes == old(writes) + Escalations([task], usersByName.Keys, blacklist.names)
      ensures Holds(next)
    {
      if ValidUser(task.username, usersByName.Keys) && !blacklist.IsPresent(task.username) {
        AdmitTaken(task, now, b, next);
      } else {
        AdmitInSkips(b, task, Infos(usersByName), blacklist.names, now);
        Escalated(task, now, b);
      }
    }

    /** `AddTaskCorrected` for a task that no user takes: the users, the ignored table and the active ids stay as they were. */
    method Escalated(task: T.Task, now: int, ghost b: Batch)
      requires Valid() && Holds(b) && !Takes(task)
      modifies this
      ensures Valid()
      ensures users == old(users) && usersByName == old(usersByName)
      ensures writes == old(writes) + Escalations([task], usersByName.Keys, blacklist.names)
      ensures Holds(b)
    {
      AddTaskCorrected(task, now);
    }

    /** `Admit` for a task that a user takes. */
    method AdmitTaken(task: T.Task, now: int, ghost b: Batch, ghost next: Batch)
      requires Valid() && Holds(b) && Takes(task)
      requires next == AdmitIn(b, task, Infos(usersByName), blacklist.names, now)
      modifies this, usersByName[task.username]
      ensures Valid()
      ensures users == old(users) && usersByName == old(usersByName)
      ensures writes == old(writes) + Escalations([task], usersByName.Keys, blacklist.names)
      ensures Holds(next)
    {
      var u := usersByName[task.username];
      Retable(u.Data(ignored), b.data[task.username], ignored);
      ghost var info := Infos(usersByName)[task.username];
      ghost var d := b.data[task.username].(ignored := b.table);
      AdmitInTakes(b, task, Infos(usersByName), blacklist.names, now);
      TakeAlone(task, now, d, info, info.id !in b.active);
    }

    /**
     * `AddTaskCorrected` for a task that the user `info` takes, from the
     * state `d`: that user's state becomes `MarkThenQueue` of `d`, with the
     * greeting when `greet`, its id is active, and the other users keep their
     * states.
     */
    method TakeAlone(task: T.Task, now: int, ghost d: U.UserData, ghost info: U.UserInfo, ghost greet: bool)
      requires Valid() && Takes(task)
      requires usersByName[task.username].Data(ignored) == d && usersByName[task.username].info == info
      requires greet == (info.id !in activeUsers)
      modifies this, usersByName[task.username]
      ensures Valid()
      ensures users == old(users) && usersByName == old(usersByName)
      ensures writes == old(writes) + Escalations([task], usersByName.Keys, blacklist.names)
      ensures var r := MarkThenQueue(d, info, task, now, greet);
        && ignored == r.ignored
        && usersByName[task.username].Data(map[]) == r.(ignored := map[])
        && activeUsers.Keys == old(activeUsers).Keys + {info.id}
      ensures forall n :: n in usersByName && n != task.username ==> usersByName[n].Data(map[]) == old(usersByName[n].Data(map[]))
    {
      assert Escalations([task], usersByName.Keys, blacklist.names) == [] by {
        assert [task][..0] == [];
      }
      TakeMarked(usersByName[task.username], task, now, d, info, greet);
    }

    /** `TakeCorrected` on the user `u`, seen through the state `d` it held. */
    method TakeMarked(u: U.User, task: T.Task, now: int, ghost d: U.UserData, ghost info: U.UserInfo, ghost greet: bool)
      requires Valid() && u in population
      requires u.Data(ignored) == d && u.info == info && greet == (info.id !in activeUsers)
      modifies this, u
      ensures Valid()
      ensures users == old(users) && usersByName == old(usersByName) && writes == old(writes)
      ensures var r := MarkThenQueue(d, info, task, now, greet);
        && ignored == r.ignored
        && u.Data(map[]) == r.(ignored := map[])
        && activeUsers.Keys == old(activeUsers).Keys + {info.id}
    {
      TakeCorrected(u, task, now);
    }

    /** A task no user takes is escalated with `comment` and written back. */
    method Escalate(task: T.Task, comment: string)
      modifies this
      ensures writes == old(writes) + T.SetVerifying(task.(comment := comment))
      ensures users == old(users) && usersByName == old(usersByName) && activeUsers == old(activeUsers) && ignored == old(ignored)
    {
      writes := writes + T.SetVerifying(task.(comment := comment));
    }

    /** The user becomes active, greeted if it was not. */
    method Activate(u: U.User)
      requires Valid() && u in population
      modifies this, u
      ensures Valid()
      ensures users == old(users) && usersByName == old(usersByName) && ignored == old(ignored) && writes == old(writes)
      ensures activeUsers == (if u.info.id in old(activeUsers) then old(activeUsers) else old(activeUsers)[u.info.id := u])
      ensures u.Data(ignored) == Greet(old(u.Data(ignored)), u.info, u.info.id !in old(activeUsers))
    {
      if u.info.id !in activeUsers {
        activeUsers := activeUsers[u.info.id := u];
        u.Record(Greeting(u.info), ignored);
      }
    }

    /** `task.set_in_progress()`. */
    method Mark(u: U.User, task: T.Task)
      requires Valid() && u in population
      modifies u
      ensures Valid()
      ensures u.Data(ignored) == old(u.Data(ignored)).(effects := old(u.effects) + U.Stores(T.SetInProgress(task)))
    {
      u.Record(U.Store(T.StatusWrite(task.hash, T.InProgress)), ignored);
    }

    /** `user.add_task(task)`, with the bot's ignored table. */
    method Queue(u: U.User, task: T.Task, now: int)
      requires Valid() && u in population
      modifies this, u
      ensures Valid()
      ensures users == old(users) && usersByName == old(usersByName) && activeUsers == old(activeUsers) && writes == old(writes)
      ensures u.Data(ignored) == U.ApplyAddTask(old(u.Data(ignored)), task, u.info.name, now)
    {
      ignored := u.AddTask(task, now, ignored);
    }

    /** The known, not blacklisted user `u` takes the task: greeted if newly active, queued, then set in progress. */
    method Take(u: U.User, task: T.Task, now: int)
      requires Valid() && u in population
      modifies this, u
      ensures Valid()
      ensures users == old(users) && usersByName == old(usersByName) && writes == old(writes)
      ensures activeUsers == (if u.info.id in old(activeUsers) then old(activeUsers) else old(activeUsers)[u.info.id := u])
      ensures u.Data(ignored) == QueueThenMark(old(u.Data(ignored)), u.info, task, now, u.info.id !in old(activeUsers))
    {
      Activate(u);
      Queue(u, task, now);
      Mark(u, task);
    }

    /** As `Take`, but the task is set in progress before it is queued. */
    method TakeCorrected(u: U.User, task: T.Task, now: int)
      requires Valid() && u in population
      modifies this, u
      ensures Valid()
      ensures users == old(users) && usersByName == old(usersByName) && writes == old(writes)
      ensures activeUsers == (if u.info.id in old(activeUsers) then old(activeUsers) else old(activeUsers)[u.info.id := u])
      ensures u.Data(ignored) == MarkThenQueue(old(u.Data(ignored)), u.info, task, now, u.info.id !in old(activeUsers))
    {
      Activate(u);
      Mark(u, task);
      Queue(u, task, now);
    }

    /**
     * The user's state after the command function `fn` ran for the user
     * `info` in the state `d`: `hi` and `help` send their message, the
     * responses record the answer, `ignore` sends its notices, and the
     * blacklist commands and `test` leave the user as it was.
     */
    ghost function UserAfter(fn: C.Fn, args: seq<string>, d: U.UserData, info: U.UserInfo): U.UserData
    {
      match fn
      case Hi => d.(effects := d.effects + [U.Formatted("hi", U.GetName(info))])
      case Help => d.(effects := d.effects + [U.Say(C.HelpText(commands, args, helpHeader, helpUsage, helpFooter))])
      case PositiveResponse => d.(lastMessage := Util.TupleBuilder(Some(true), Some(Strings.Join(args, " "))))
      case NegativeResponse => d.(lastMessage := Util.TupleBuilder(Some(false), Some(Strings.Join(args, " "))))
      case Ignore => d.(effects := d.effects + C.Notices(C.PlanIgnore(args, d.pending)))
      case _ => d
    }

    /** Calls the command function of `c` for `user` with `args`. */
    method RunCommand(user: U.User, c: C.CommandInfo, args: seq<string>, now: int) returns (out: C.Outcome)
      requires Valid() && user in population
      modifies this, user, blacklist
      ensures Valid()
      ensures users == old(users) && usersByName == old(usersByName) && activeUsers == old(activeUsers) && writes == old(writes)
      ensures out == CommandOutcome(c.fn, args, old(user.pending), user.info.name, old(blacklist.names))
      ensures blacklist.names == ListedAfter(c.fn, user.info.name, old(blacklist.names))
      ensures ignored == IgnoredAfter(c.fn, args, old(user.pending), user.info.name, old(ignored), now)
      ensures user.Data(map[]) == UserAfter(c.fn, args, old(user.Data(map[])), user.info)
    {
      match c.fn
      case AddToBlacklist | RemoveFromBlacklist | Test =>
        out := RunBotCommand(user, c.fn);
      case Ignore =>
        out := RunIgnore(user, args, now);
      case _ =>
        out := RunUserCommand(user, c, args);
    }

    /** The command functions that leave the user as it was: the blacklist commands and `test`. */
    method RunBotCommand(user: U.User, fn: C.Fn) returns (out: C.Outcome)
      requires fn in {C.AddToBlacklist, C.RemoveFromBlacklist, C.Test}
      modifies blacklist
      ensures out == CommandOutcome(fn, [], None, user.info.name, old(blacklist.names))
      ensures blacklist.names == ListedAfter(fn, user.info.name, old(blacklist.names))
    {
      match fn
      case AddToBlacklist =>
        out := C.AddToBlacklistFor(blacklist, user.info.name);
      case RemoveFromBlacklist =>
        out := C.RemoveFromBlacklistFor(blacklist, user.info.name);
      case Test =>
        out := C.TestAlert();
    }

    /** The command functions that act on the user alone and return nothing: `hi`, `help` and the responses. */
    method RunUserCommand(user: U.User, c: C.CommandInfo, args: seq<string>) returns (out: C.Outcome)
      requires Valid() && user in population
      requires c.fn in {C.Hi, C.Help, C.PositiveResponse, C.NegativeResponse}
      modifies user
      ensures Valid()
      ensures out == C.Returned(false)
      ensures user.Data(map[]) == UserAfter(c.fn, args, old(user.Data(map[])), user.info)
    {
      match c.fn
      case Hi =>
        out := C.SayHi(user);
      case Help =>
        out := C.SendHelp(user, commands, args, helpHeader, helpUsage, helpFooter);
      case PositiveResponse =>
        out := C.Positive(user, args);
      case NegativeResponse =>
        out := C.Negative(user, args);
    }

    /** `ignore`, with the bot's ignored table. */
    method RunIgnore(user: U.User, args: seq<string>, now: int) returns (out: C.Outcome)
      requires Valid() && user in population
      modifies this, user
      ensures Valid()
      ensures users == old(users) && usersByName == old(usersByName) && activeUsers == old(activeUsers) && writes == old(writes)
      ensures out == CommandOutcome(C.Ignore, args, old(user.pending), user.info.name, {})
      ensures ignored == IgnoredAfter(C.Ignore, args, old(user.pending), user.info.name, old(ignored), now)
      ensures user.Data(map[]) == UserAfter(C.Ignore, args, old(user.Data(map[])), user.info)
    {
      out, ignored := C.IgnoreTask(user, args, now, ignored);
    }

    /**
     * `handle_command(user, command)`: the text is parsed, the command looked
     * up and its function called; then the success message is sent when the
     * function returned something truthy and the failure message otherwise,
     * each only when it is set.
     */
    method HandleCommand(user: U.User, text: string, now: int) returns (r: Result<bool, string>)
      requires Valid() && user in population
      modifies this, user, blacklist
      ensures Valid()
      ensures users == old(users) && usersByName == old(usersByName) && activeUsers == old(activeUsers) && writes == old(writes)
      ensures var p := ParseCommand(text, tokenize);
              r == (if p.Err? then Err(p.error)
                    else if p.value.0 !in commands then Err(KEY_ERROR)
                    else Handled(CommandOutcome(commands[p.value.0].fn, p.value.1, old(user.pending), user.info.name, old(blacklist.names))))
      ensures r.Err? && (ParseCommand(text, tokenize).Err? || ParseCommand(text, tokenize).value.0 !in commands) ==>
                user.Data(map[]) == old(user.Data(map[])) && blacklist.names == old(blacklist.names) && ignored == old(ignored)
      ensures r.Err? ==> user.Data(map[]) == old(user.Data(map[]))
      ensures ParseCommand(text, tokenize).Ok? && ParseCommand(text, tokenize).value.0 in commands ==>
                var (key, args) := ParseCommand(text, tokenize).value;
                && blacklist.names == ListedAfter(commands[key].fn, user.info.name, old(blacklist.names))
                && ignored == IgnoredAfter(commands[key].fn, args, old(user.pending), user.info.name, old(ignored), now)
      ensures r.Ok? ==>
                var (key, args) := ParseCommand(text, tokenize).value;
                var d := UserAfter(commands[key].fn, args, old(user.Data(map[])), user.info);
                user.Data(map[]) == d.(effects := d.effects + Reply(commands[key], r.value))
    {
      var parsed := ParseCommand(text, tokenize);
      if parsed.Err? {
        return Err(parsed.error);
      }
      var (key, args) := parsed.value;
      if key !in commands {
        return Err(KEY_ERROR);
      }
      var c := commands[key];
      var out := RunCommand(user, c, args, now);
      if out.Raised? {
        return Err(out.error);
      }
      var reply := Reply(c, out.truthy);
      if |reply| == 1 {
        user.Record(reply[0], map[]);
      }
      r := Ok(out.truthy);
    }

    /** `user.step()`, with the bot's ignored table. */
    method Advance(u: U.User, env: U.Env)
      requires Valid() && u in population
      modifies this, u, u.fsm
      ensures Valid()
      ensures users == old(users) && usersByName == old(usersByName) && activeUsers == old(activeUsers) && writes == old(writes)
      ensures u.Data(ignored) == U.UserStep(old(u.Data(ignored)), u.info.name, env) && u.steps == old(u.steps) + 1
    {
      ignored := u.Step(env, ignored);
    }

    /**
     * One user takes one step; when the step said goodbye (`cleanup_user`),
     * the user's id leaves the active users.
     */
    method StepUser(u: U.User, env: U.Env) returns (left: bool)
      requires Valid() && u in population
      modifies this, u, u.fsm
      ensures Valid()
      ensures users == old(users) && usersByName == old(usersByName) && writes == old(writes)
      ensures u.Data(ignored) == U.UserStep(old(u.Data(ignored)), u.info.name, env)
      ensures u.steps == old(u.steps) + 1 && |old(u.effects)| <= |u.effects|
      ensures left <==> U.Cleanup in u.effects[|old(u.effects)|..]
      ensures activeUsers == if left then old(activeUsers) - {u.info.id} else old(activeUsers)
    {
      var n := |u.effects|;
      Advance(u, env);
      left := U.Cleanup in u.effects[n..];
      if left {
        CleanupUser(u);
      }
    }

    /** The active users' states, by id, with the ignored table. */
    ghost function Active(): Walk
      requires Valid()
      reads this, Repr()
    {
      Walk(map id | id in activeUsers :: activeUsers[id].Data(ignored), ignored)
    }

    /** The active users' names, by id. */
    ghost function ActiveNames(): map<string, string>
      reads this
    {
      map id | id in activeUsers :: activeUsers[id].info.name
    }

    /**
     * `handle_users()`: every user active when it starts takes one step, in
     * the order `order` in which the dict yields the ids (read first, so a
     * user leaving does not disturb the walk). Each user's state and the
     * ignored table are those that the steps leave one after the other in
     * that order (`StepAll`). An id is still active exactly when its user's
     * step did not say goodbye; no user becomes active.
     */
    method HandleUsers(envOf: string -> U.Env) returns (ghost order: seq<string>)
      requires Valid()
      modifies this, Repr()
      ensures Valid()
      ensures users == old(users) && usersByName == old(usersByName) && writes == old(writes)
      ensures |order| == |old(activeUsers)| && forall id :: id in order <==> id in old(activeUsers)
      ensures forall i, j :: 0 <= i < j < |order| ==> order[i] != order[j]
      ensures var w := StepAll(old(Active()), order, old(ActiveNames()), envOf);
        && ignored == w.table
        && forall id :: id in old(activeUsers) ==> old(activeUsers)[id].Data(map[]) == w.data[id].(ignored := map[])
      ensures forall id :: id in activeUsers ==> id in old(activeUsers) && activeUsers[id] == old(activeUsers)[id]
      ensures forall id :: id in old(activeUsers) ==>
                var u := old(activeUsers)[id];
                && u.steps == old(u.steps) + 1
                && |old(u.effects)| <= |u.effects|
                && (id in activeUsers <==> U.Cleanup !in u.effects[|old(u.effects)|..])
    {
      ghost var active, start, names := activeUsers, Active(), ActiveNames();
      ghost var steps0, said0 := StepCounts(), SaidCounts();
      var ids := activeUsers.Keys;
      order := [];
      ProgressStart(envOf);
      while ids != {}
        invariant Valid()
        invariant users == old(users) && usersByName == old(usersByName) && writes == old(writes)
        invariant Progress(active, ids, order, steps0, said0, start, names, envOf)
        decreases ids
      {
        var id :| id in ids;
        Visit(id, envOf, active, ids, steps0, said0, start, order, names);
        ids := ids - {id};
        order := order + [id];
      }
      ProgressEnd(active, order, steps0, said0, start, names, envOf);
      WalkedEnd(active, steps0, said0);
    }

    /** Each active user's step count, by id. */
    ghost function StepCounts(): map<string, nat>
      reads this, activeUsers.Values
    {
      map id | id in activeUsers :: activeUsers[id].steps
    }

    /** The number of effects each active user has had, by id. */
    ghost function SaidCounts(): map<string, nat>
      reads this, activeUsers.Values
    {
      map id | id in activeUsers :: |activeUsers[id].effects|
    }

    /**
     * Part way through `handle_users()`: the ids of `active` still to visit
     * are `ids`, those visited are `order`, in visiting order (`Order`), the
     * users took their steps as `Walked` says, and hold the states of the
     * walk so far (`Tracks`).
     */
    ghost predicate Progress(active: map<string, U.User>, ids: set<string>, order: seq<string>,
                             steps0: map<string, nat>, said0: map<string, nat>,
                             start: Walk, names: map<string, string>, envOf: string -> U.Env)
      reads this, active.Values, set id | id in active :: active[id].fsm
    {
      && ids <= active.Keys
      && Walked(active, ids, steps0, said0)
      && Order(active, ids, order)
      && Tracks(active, start, order, names, envOf)
    }

    /** Before the walk, no user has been visited. */
    lemma ProgressStart(envOf: string -> U.Env)
      requires Valid()
      ensures Progress(activeUsers, activeUsers.Keys, [], StepCounts(), SaidCounts(), Active(), ActiveNames(), envOf)
    {
    }

    /** After the walk, `order` lists every user of `active` once, and the users hold the states the walk leaves. */
    lemma ProgressEnd(active: map<string, U.User>, order: seq<string>, steps0: map<string, nat>, said0: map<string, nat>,
                      start: Walk, names: map<string, string>, envOf: string -> U.Env)
      requires Progress(active, {}, order, steps0, said0, start, names, envOf)
      ensures |order| == |active| && forall id :: id in order <==> id in active
      ensures forall i, j :: 0 <= i < j < |order| ==> order[i] != order[j]
      ensures var w := StepAll(start, order, names, envOf);
        && ignored == w.table
        && forall id :: id in active ==> active[id].Data(map[]) == w.data[id].(ignored := map[])
    {
      OrderCovers(active, order);
    }

    /** After the walk, every user of `active` took its one step, and is still active exactly when it did not say goodbye. */
    lemma WalkedEnd(active: map<string, U.User>, steps0: map<string, nat>, said0: map<string, nat>)
      requires Walked(active, {}, steps0, said0)
      ensures forall id :: id in activeUsers ==> id in active && activeUsers[id] == active[id]
      ensures forall id :: id in active ==>
                var u := active[id];
                && u.steps == steps0[id] + 1
                && said0[id] <= |u.effects|
                && (id in activeUsers <==> U.Cleanup !in u.effects[said0[id]..])
    {
    }

    /** `order` lists, once each, the ids of `active` that are not left in `ids`. */
    static ghost predicate Order(active: map<string, U.User>, ids: set<string>, order: seq<string>)
    {
      && (forall i :: 0 <= i < |order| ==> order[i] in active && order[i] !in ids)
      && (forall id :: id in active ==> id in ids || id in order)
      && (forall i, j :: 0 <= i < j < |order| ==> order[i] != order[j])
    }

    /** Visiting `id` next extends `order` by it. */
    static lemma OrderNext(active: map<string, U.User>, ids: set<string>, order: seq<string>, id: string)
      requires Order(active, ids, order) && id in ids && ids <= active.Keys
      ensures Order(active, ids - {id}, order + [id])
    {
    }

    /** Once the walk is over, `order` lists every active id once. */
    static lemma OrderCovers(active: map<string, U.User>, order: seq<string>)
      requires Order(active, {}, order)
      ensures |order| == |active| && forall id :: id in order <==> id in active
    {
      DistinctCard(order, active.Keys);
    }

    /** A sequence that lists each element of a set once is as long as the set. */
    static lemma {:induction false} DistinctCard(order: seq<string>, keys: set<string>)
      requires forall i, j :: 0 <= i < j < |order| ==> order[i] != order[j]
      requires forall id :: id in order <==> id in keys
      ensures |order| == |keys|
    {
      if |order| > 0 {
        var last := order[|order| - 1];
        var init := order[..|order| - 1];
        assert forall id :: id in init <==> id in keys - {last} by {
          forall id ensures id in init <==> id in keys - {last} {
            if id in init {
              var i :| 0 <= i < |init| && init[i] == id;
              assert order[i] == id;
            }
            if id in keys - {last} {
              var i :| 0 <= i < |order| && order[i] == id;
              assert i != |order| - 1 && init[i] == id;
            }
          }
        }
        DistinctCard(init, keys - {last});
      } else {
        assert forall id :: id !in keys;
        assert keys == {};
      }
    }

    /**
     * Part way through `handle_users()`, starting from the walk `start`: the
     * users of `active` hold the states, and the bot the ignored table, that
     * the steps of the users in `order` leave.
     */
    ghost predicate Tracks(active: map<string, U.User>, start: Walk, order: seq<string>, names: map<string, string>, envOf: string -> U.Env)
      reads this, active.Values, set id | id in active :: active[id].fsm
    {
      && start.data.Keys == active.Keys && names.Keys == active.Keys
      && (forall id :: id in active ==> names[id] == active[id].info.name)
      && (forall id :: id in order ==> id in active)
      && Mirrors(active, StepAll(start, order, names, envOf))
    }

    /** The users of `active` hold the states of `w`, and the bot its ignored table. */
    ghost predicate Mirrors(active: map<string, U.User>, w: Walk)
      reads this, active.Values, set id | id in active :: active[id].fsm
    {
      && w.data.Keys == active.Keys
      && ignored == w.table
      && forall id :: id in active ==> active[id].Data(map[]) == w.data[id].(ignored := map[])
    }

    /**
     * Part way through `handle_users()`, starting from the active users
     * `active`, whose step counts and effect counts were `steps0` and
     * `said0`: the users still to visit, `ids`, are active and untouched; each
     * visited user took one step and is still active exactly when that step
     * did not say goodbye; no other user became active.
     */
    ghost predicate Walked(active: map<string, U.User>, ids: set<string>, steps0: map<string, nat>, said0: map<string, nat>)
      reads this, active.Values
    {
      && (forall id :: id in activeUsers ==> id in active && activeUsers[id] == active[id])
      && (forall id :: id in active ==> id in steps0 && id in said0 && active[id] in population && active[id].info.id == id)
      && (forall id :: id in ids ==> id in activeUsers && active[id].steps == steps0[id] && |active[id].effects| == said0[id])
      && (forall id :: id in active && id !in ids ==>
            var u := active[id];
            && u.steps == steps0[id] + 1
            && said0[id] <= |u.effects|
            && (id in activeUsers <==> U.Cleanup !in u.effects[said0[id]..]))
    }

    /** One turn of `handle_users()`: the walk goes one user, `id`, further. */
    method Visit(id: string, envOf: string -> U.Env, ghost active: map<string, U.User>, ghost ids: set<string>,
                 ghost steps0: map<string, nat>, ghost said0: map<string, nat>,
                 ghost start: Walk, ghost order: seq<string>, ghost names: map<string, string>)
      requires Valid() && id in ids && Progress(active, ids, order, steps0, said0, start, names, envOf)
      modifies this, activeUsers[id], activeUsers[id].fsm
      ensures Valid()
      ensures users == old(users) && usersByName == old(usersByName) && writes == old(writes)
      ensures Progress(active, ids - {id}, order + [id], steps0, said0, start, names, envOf)
    {
      OrderNext(active, ids, order, id);
      StepAllNext(start, order, names, envOf, id);
      VisitTracked(id, envOf(id), active, ids, steps0, said0, StepAll(start, order, names, envOf), names[id]);
    }

    /** The next user of the walk, `id`, takes its step: the users now hold the states of the walk `w` one user further. */
    method VisitTracked(id: string, env: U.Env, ghost active: map<string, U.User>, ghost ids: set<string>,
                        ghost steps0: map<string, nat>, ghost said0: map<string, nat>, ghost w: Walk, ghost name: string)
      requires Valid() && id in ids && ids <= active.Keys && Walked(active, ids, steps0, said0)
      requires Mirrors(active, w) && name == active[id].info.name
      modifies this, activeUsers[id], activeUsers[id].fsm
      ensures Valid()
      ensures users == old(users) && usersByName == old(usersByName) && writes == old(writes)
      ensures Walked(active, ids - {id}, steps0, said0)
      ensures Mirrors(active, StepIn(w, id, name, env))
    {
      Retable(active[id].Data(ignored), w.data[id], ignored);
      VisitNext(id, env, active, ids, steps0, said0, w.data[id].(ignored := w.table));
      ghost var w' := StepIn(w, id, name, env);
      forall other | other in active && other != id
        ensures active[other].Data(map[]) == w'.data[other].(ignored := map[])
      {
      }
    }

    /**
     * The next user of the walk, `id`, takes its step (`UserStep`) with the
     * bot's ignored table; the other users keep their states.
     */
    method VisitNext(id: string, env: U.Env, ghost active: map<string, U.User>, ghost ids: set<string>,
                     ghost steps0: map<string, nat>, ghost said0: map<string, nat>, ghost d: U.UserData)
      requires Valid() && id in ids && ids <= active.Keys && Walked(active, ids, steps0, said0)
      requires active[id].Data(ignored) == d
      modifies this, activeUsers[id], activeUsers[id].fsm
      ensures Valid()
      ensures users == old(users) && usersByName == old(usersByName) && writes == old(writes)
      ensures Walked(active, ids - {id}, steps0, said0)
      ensures active[id].Data(ignored) == U.UserStep(d, active[id].info.name, env)
      ensures forall other :: other in active && other != id ==> active[other].Data(map[]) == old(active[other].Data(map[]))
    {
      var u := activeUsers[id];
      var left := StepAlone(u, env, active, id);
    }

    /** `StepUser` on the user `id` of `active`; the other users of `active` keep their states. */
    method StepAlone(u: U.User, env: U.Env, ghost active: map<string, U.User>, ghost id: string) returns (left: bool)
      requires Valid() && id in active && active[id] == u
      requires forall other :: other in active ==> active[other] in population && active[other].info.id == other
      modifies this, u, u.fsm
      ensures Valid()
      ensures users == old(users) && usersByName == old(usersByName) && writes == old(writes)
      ensures u.Data(ignored) == U.UserStep(old(u.Data(ignored)), u.info.name, env)
      ensures u.steps == old(u.steps) + 1 && |old(u.effects)| <= |u.effects|
      ensures left <==> U.Cleanup in u.effects[|old(u.effects)|..]
      ensures activeUsers == if left then old(activeUsers) - {u.info.id} else old(activeUsers)
      ensures forall other :: other in active && other != id ==> active[other].Data(map[]) == old(active[other].Data(map[]))
    {
      assert forall other :: other in active && other != id ==> active[other].fsm != u.fsm;
      left := StepUser(u, env);
    }

    /** `cleanup_user(user)`: the user's id leaves the active users, if it was there. */
    method CleanupUser(user: U.User)
      requires Valid()
      modifies this
      ensures Valid()
      ensures activeUsers == old(activeUsers) - {user.info.id}
      ensures users == old(users) && usersByName == old(usersByName) && ignored == old(ignored) && writes == old(writes)
    {
      activeUsers := activeUsers - {user.info.id};
    }
  }
}
