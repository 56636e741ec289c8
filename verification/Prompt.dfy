/** The prompt for one question: earlier turns replayed, then the question. */
module Prompt {
  import opened ConversationStore

  datatype Role = User | Assistant

  datatype Message = Message(role: Role, content: string)

  function Reply(g: SqlGeneration): (r: string)
  {
    if g.answerable then g.sql else "Not answerable from this schema: " + g.explanation
  }

  function RenderHistory(history: seq<Turn>): (r: seq<Message>)
  {
    if history == [] then []
    else [Message(User, history[0].question), Message(Assistant, Reply(history[0].generation))] + RenderHistory(history[1..])
  }

  function Messages(question: string, history: seq<Turn>): (r: seq<Message>)
  {
    RenderHistory(history) + [Message(User, question)]
  }

  /**
   * k held turns make 2k + 1 messages: user and assistant alternate, turn i sits at 2i
   * and 2i + 1, and the new question comes last.
   */
  lemma {:induction false} PromptShape(question: string, history: seq<Turn>)
    ensures var m := Messages(question, history);
            && |m| == 2 * |history| + 1
            && m[|m| - 1] == Message(User, question)
            && (forall i :: 0 <= i < |history| ==>
                  m[2 * i] == Message(User, history[i].question)
                  && m[2 * i + 1] == Message(Assistant, Reply(history[i].generation)))
            && (forall j :: 0 <= j < |m| ==> m[j].role == if j % 2 == 0 then User else Assistant)
  {
    if history != [] {
      PromptShape(question, history[1..]);
      var m, rest := Messages(question, history), Messages(question, history[1..]);
      var first := [Message(User, history[0].question), Message(Assistant, Reply(history[0].generation))];
      assert m == first + rest;
      forall i | 0 < i < |history|
        ensures m[2 * i] == Message(User, history[i].question)
             && m[2 * i + 1] == Message(Assistant, Reply(history[i].generation))
      {
        assert history[1..][i - 1] == history[i];
        assert m[2 * i] == rest[2 * (i - 1)] && m[2 * i + 1] == rest[2 * (i - 1) + 1];
      }
      forall j | 0 <= j < |m| ensures m[j].role == if j % 2 == 0 then User else Assistant {
        if j >= 2 {
          assert m[j] == rest[j - 2];
        }
      }
    }
  }

  predicate EndsWith(text: string, end: string)
  {
    |end| <= |text| && text[|text| - |end|..] == end
  }

  /** What turn `i` is remembered by: the question, then its query, or why there was none. */
  lemma TurnsAreReplayed(question: string, history: seq<Turn>, i: nat)
    requires i < |history|
    ensures var m, g := Messages(question, history), history[i].generation;
            && 2 * i + 1 < |m| && m[2 * i].content == history[i].question
            && (if g.answerable then m[2 * i + 1].content == g.sql else EndsWith(m[2 * i + 1].content, g.explanation))
  {
    PromptShape(question, history);
  }
}
