/** The assistant panel: it sorts the controller's status message into one
    of four types by case-sensitive substring tests taken in a fixed order,
    first match wins, and picks an icon and a text colour by type. */
module Feedback {
  import opened Engine

  datatype FeedbackType = Success | Error | Info | Default

  /** `sub` occurs in `s` starting at `i`. */
  predicate OccursAt(s: string, sub: string, i: int) {
    0 <= i && i + |sub| <= |s| && s[i..i + |sub|] == sub
  }

  /** `s.includes(sub)`. Strings are sequences of code points here; a search
      for a well-formed string over UTF-16 units finds the same matches. */
  predicate Contains(s: string, sub: string) {
    exists i | 0 <= i <= |s| :: OccursAt(s, sub, i)
  }

  const Party := "\U{1F389}"

  /** `getFeedbackType`: success before error before info, else default. */
  function Classify(message: string): (t: FeedbackType)
    ensures t == Success <==> Contains(message, "successfully") || Contains(message, Party)
    ensures t == Error <==>
      && !(Contains(message, "successfully") || Contains(message, Party))
      && (Contains(message, "Error") || Contains(message, "stopped"))
    ensures t == Info <==>
      && !(Contains(message, "successfully") || Contains(message, Party))
      && !(Contains(message, "Error") || Contains(message, "stopped"))
      && (Contains(message, "Add") || Contains(message, "Ready"))
  {
    if Contains(message, "successfully") || Contains(message, Party) then Success
    else if Contains(message, "Error") || Contains(message, "stopped") then Error
    else if Contains(message, "Add") || Contains(message, "Ready") then Info
    else Default
  }

  /** A word found somewhere in a message is contained in it. */
  lemma ContainsInfix(pre: string, word: string, post: string)
    ensures Contains(pre + word + post, word)
  {
    var s := pre + word + post;
    assert s[|pre|..|pre| + |word|] == word;
    assert OccursAt(s, word, |pre|);
  }

  /** A message mentioning success is a success whatever else it says; one
      mentioning an error or a stop is an error unless it also mentions
      success. */
  lemma FirstMatchWins(pre: string, post: string)
    ensures Classify(pre + "successfully" + post) == Success
    ensures Classify(pre + Party + post) == Success
    ensures !Contains(pre + "Error" + post, "successfully") && !Contains(pre + "Error" + post, Party) ==>
      Classify(pre + "Error" + post) == Error
    ensures !Contains(pre + "stopped" + post, "successfully") && !Contains(pre + "stopped" + post, Party) ==>
      Classify(pre + "stopped" + post) == Error
  {
    ContainsInfix(pre, "successfully", post);
    ContainsInfix(pre, Party, post);
    ContainsInfix(pre, "Error", post);
    ContainsInfix(pre, "stopped", post);
  }

  /** The empty message, like every message with none of the six words, is
      of the default type. */
  lemma EmptyIsDefault()
    ensures Classify("") == Default
  {
    NotContainsMissingChar("", "successfully", 0);
    NotContainsMissingChar("", Party, 0);
    NotContainsMissingChar("", "Error", 0);
    NotContainsMissingChar("", "stopped", 0);
    NotContainsMissingChar("", "Add", 0);
    NotContainsMissingChar("", "Ready", 0);
  }

  /** A word with a character the message lacks does not occur in it. */
  lemma NotContainsMissingChar(s: string, sub: string, j: nat)
    requires j < |sub|
    requires sub[j] !in s
    ensures !Contains(s, sub)
  {
    forall i | 0 <= i <= |s|
      ensures !OccursAt(s, sub, i)
    {
      if i + |sub| <= |s| {
        assert s[i..i + |sub|][j] == s[i + j];
        assert s[i + j] in s;
      }
    }
  }

  /** A word whose first two characters are never adjacent in the message
      does not occur in it. */
  lemma NotContainsMissingPair(s: string, sub: string)
    requires |sub| >= 2
    requires !Adjacent(s, sub[0], sub[1])
    ensures !Contains(s, sub)
  {
    forall i | 0 <= i <= |s|
      ensures !OccursAt(s, sub, i)
    {
      if i + |sub| <= |s| {
        assert s[i..i + |sub|][0] == s[i];
        assert s[i..i + |sub|][1] == s[i + 1];
      }
    }
  }

  /** How the panel classifies each message the controller shows. */
  lemma ControllerMessageTypes()
    ensures Classify(SuccessMessage) == Success
    ensures Classify(StoppedMessage) == Error
    ensures Classify(EmptyProgramMessage) == Info
    ensures Classify(ResetMessage) == Info
    ensures Classify(ExecutingMessage) == Default
  {
    SuccessMessageType();
    StoppedMessageType();
    EmptyProgramMessageType();
    ResetMessageType();
    ExecutingMessageType();
  }

  lemma SuccessMessageType()
    ensures Classify(SuccessMessage) == Success
  {
    assert SuccessMessage == "Program executed successfully! " + Party + "";
    ContainsInfix("Program executed successfully! ", Party, "");
  }

  lemma StoppedMessageType()
    ensures Classify(StoppedMessage) == Error
  {
    assert StoppedMessage == "Execution " + "stopped" + ".";
    ContainsInfix("Execution ", "stopped", ".");
    NotContainsMissingChar(StoppedMessage, "successfully", 10);
    NotContainsMissingChar(StoppedMessage, Party, 0);
  }

  lemma EmptyProgramMessageType()
    ensures Classify(EmptyProgramMessage) == Info
  {
    EmptyProgramMessageHasAdd();
    EmptyProgramMessageLacks();
  }

  lemma EmptyProgramMessageHasAdd()
    ensures Contains(EmptyProgramMessage, "Add")
  {
    EmptyProgramMessagePieces();
    var rest := " some logic " + "blocks" + " to create" + " your " + "program!";
    assert "Add some logic " == "Add" + " some logic ";
    assert EmptyProgramMessage == "Add" + rest;
    assert "" + "Add" + rest == "Add" + rest;
    ContainsInfix("", "Add", rest);
  }

  lemma EmptyProgramMessagePieces()
    ensures EmptyProgramMessage == "Add some logic " + "blocks" + " to create" + " your " + "program!"
  {
  }

  lemma EmptyProgramMessageLacks()
    ensures !Contains(EmptyProgramMessage, "successfully") && !Contains(EmptyProgramMessage, Party)
    ensures !Contains(EmptyProgramMessage, "Error") && !Contains(EmptyProgramMessage, "stopped")
  {
    EmptyProgramMessagePieces();
    EmptyProgramLacks('f');
    EmptyProgramLacks('\U{1F389}');
    EmptyProgramLacks('E');
    NoSt(EmptyProgramMessage);
    LacksSuccessWords(EmptyProgramMessage);
    LacksStopWords(EmptyProgramMessage);
  }

  /** The empty-program message, cut into short pieces, has no 'f', no party
      emoji and no 'E'. */
  lemma EmptyProgramLacks(c: char)
    requires c in {'f', '\U{1F389}', 'E'}
    ensures c !in "Add some logic " + "blocks" + " to create" + " your " + "program!"
  {
  }

  lemma ResetMessageType()
    ensures Classify(ResetMessage) == Info
  {
    ResetMessageHasReady();
    ResetMessageLacks();
  }

  lemma ResetMessageHasReady()
    ensures Contains(ResetMessage, "Ready")
  {
    assert ResetMessage == "Workspace cleared. " + "Ready" + " to build!";
    ContainsInfix("Workspace cleared. ", "Ready", " to build!");
  }

  lemma ResetMessagePieces()
    ensures ResetMessage == "Workspace" + " cleared." + " Ready" + " to build!"
  {
  }

  lemma ResetMessageLacks()
    ensures !Contains(ResetMessage, "successfully") && !Contains(ResetMessage, Party)
    ensures !Contains(ResetMessage, "Error") && !Contains(ResetMessage, "stopped")
  {
    ResetMessagePieces();
    ResetLacks('f');
    ResetLacks('\U{1F389}');
    ResetLacks('E');
    NoSt(ResetMessage);
    LacksSuccessWords(ResetMessage);
    LacksStopWords(ResetMessage);
  }

  /** The reset message, cut into short pieces, has no 'f', no party emoji and
      no 'E'. */
  lemma ResetLacks(c: char)
    requires c in {'f', '\U{1F389}', 'E'}
    ensures c !in "Workspace" + " cleared." + " Ready" + " to build!"
  {
  }

  /** Neither message has an 's' directly followed by a 't'. */
  lemma NoSt(s: string)
    requires s == "Add some logic blocks to create your program!" || s == "Workspace cleared. Ready to build!"
    ensures !Adjacent(s, 's', 't')
  {
    if s == "Add some logic blocks to create your program!" {
      assert forall k :: 0 <= k < |s| - 1 ==> !(s[k] == 's' && s[k + 1] == 't');
    } else {
      assert forall k :: 0 <= k < |s| - 1 ==> !(s[k] == 's' && s[k + 1] == 't');
    }
  }

  /** `c` is immediately followed by `d` somewhere in `s`. */
  predicate Adjacent(s: string, c: char, d: char) {
    exists k | 0 <= k < |s| - 1 :: s[k] == c && s[k + 1] == d
  }

  /** Neither success word occurs in a message lacking 'f' and the party
      emoji. */
  lemma LacksSuccessWords(s: string)
    requires 'f' !in s && Party[0] !in s
    ensures !Contains(s, "successfully") && !Contains(s, Party)
  {
    NotContainsMissingChar(s, "successfully", 7);
    NotContainsMissingChar(s, Party, 0);
  }

  /** Neither error word occurs in a message lacking 'E' and the pair "st". */
  lemma LacksStopWords(s: string)
    requires 'E' !in s
    requires !Adjacent(s, 's', 't')
    ensures !Contains(s, "Error") && !Contains(s, "stopped")
  {
    NotContainsMissingChar(s, "Error", 0);
    NotContainsMissingPair(s, "stopped");
  }

  lemma ExecutingMessageType()
    ensures Classify(ExecutingMessage) == Default
  {
    ExecutingMessageLacks('s');
    ExecutingMessageLacks('\U{1F389}');
    ExecutingMessageLacks('A');
    ExecutingMessageLacks('R');
    ExecutingMessageNoEr();
    NotContainsMissingChar(ExecutingMessage, "successfully", 0);
    NotContainsMissingChar(ExecutingMessage, Party, 0);
    NotContainsMissingPair(ExecutingMessage, "Error");
    NotContainsMissingChar(ExecutingMessage, "stopped", 0);
    NotContainsMissingChar(ExecutingMessage, "Add", 0);
    NotContainsMissingChar(ExecutingMessage, "Ready", 0);
  }

  /** The progress message has no 's', no party emoji, no 'A' and no 'R'. */
  lemma ExecutingMessageLacks(c: char)
    requires c in {'s', '\U{1F389}', 'A', 'R'}
    ensures c !in ExecutingMessage
  {
    assert ExecutingMessage == "Executing" + " program...";
  }

  /** Its only 'E' is followed by an 'x'. */
  lemma ExecutingMessageNoEr()
    ensures !Adjacent(ExecutingMessage, 'E', 'r')
  {
    var s := ExecutingMessage;
    assert forall k :: 0 <= k < |s| - 1 ==> !(s[k] == 'E' && s[k + 1] == 'r');
  }

  datatype Icon = CheckCircle | AlertCircle | Lightbulb | MessageSquare

  /** `getIcon`: the icon and its colour class. */
  function IconOf(t: FeedbackType): (Icon, string) {
    match t
    case Success => (CheckCircle, "text-cyber-success")
    case Error => (AlertCircle, "text-cyber-error")
    case Info => (Lightbulb, "text-cyber-warning")
    case Default => (MessageSquare, "text-cyber-primary")
  }

  /** `getTextColor`. */
  function TextColor(t: FeedbackType): string {
    match t
    case Success => "text-cyber-success"
    case Error => "text-cyber-error"
    case Info => "text-cyber-warning"
    case Default => "text-cyber-text"
  }

  /** Each type has its own icon and its own text colour; the icon's colour is
      the text colour except for the default type. */
  lemma StylesDistinguishTypes(t: FeedbackType, u: FeedbackType)
    ensures IconOf(t).0 == IconOf(u).0 ==> t == u
    ensures TextColor(t) == TextColor(u) ==> t == u
    ensures IconOf(t).1 == TextColor(t) <==> t != Default
  {
  }

  const WelcomeMessage := "Welcome to Logic Forge! Drag logic blocks to the workspace to start programming your robot."

  /** The text shown: the message, or the welcome text when it is empty. The
      type is still taken from the message, so the welcome text is shown in
      the default style. */
  function ShownText(message: string): (text: string)
    ensures |text| > 0
    ensures message != "" ==> text == message
    ensures message == "" ==> text == WelcomeMessage && Classify(message) == Default
  {
    if message == "" then WelcomeMessage else message
  }
}
