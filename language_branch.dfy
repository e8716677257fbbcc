/**
 * The language-aware chain: `is_english` tests whether every character of the input's
 * `word` lies in the ASCII range, and the branch formats the English prompt when it does
 * and the Korean prompt otherwise. What the model answers to the prompt, and the parser
 * after it, are not part of this model.
 */
module LanguageBranch {
  import opened Wrappers

  /** The `KeyError` a dictionary lookup raises for a missing key. */
  datatype KeyError = KeyError(key: string)

  const WordKey: string := "word"

  /** `all(ord(char) < 128 for char in w)`, examined from the first character on. */
  predicate IsAsciiWord(w: string)
    decreases |w|
  {
    w == [] || (w[0] as int < 128 && IsAsciiWord(w[1..]))
  }

  /** `is_english(x)`: raises `KeyError` when `x` has no `word`. */
  function IsEnglish(x: map<string, string>): (r: Result<bool, KeyError>)
    ensures r.Err? <==> WordKey !in x
    ensures r.Err? ==> r.error == KeyError(WordKey)
  {
    if WordKey in x then Ok(IsAsciiWord(x[WordKey])) else Err(KeyError(WordKey))
  }

  /** The test holds exactly when every character has a code point below 128. */
  lemma {:induction false} IsAsciiWordIff(w: string)
    ensures IsAsciiWord(w) <==> forall i :: 0 <= i < |w| ==> w[i] as int < 128
    decreases |w|
  {
    if w != [] {
      IsAsciiWordIff(w[1..]);
      assert forall i :: 1 <= i < |w| ==> w[i] == w[1..][i - 1];
    }
  }

  /** The empty word counts as English. */
  lemma EmptyIsEnglish(x: map<string, string>)
    requires WordKey in x && x[WordKey] == ""
    ensures IsEnglish(x) == Ok(true)
  {
  }

  /** A word is ASCII exactly when both of its parts are. */
  lemma {:induction false} IsAsciiWordConcat(a: string, b: string)
    ensures IsAsciiWord(a + b) <==> IsAsciiWord(a) && IsAsciiWord(b)
    decreases |a|
  {
    if a == [] {
      assert a + b == b;
    } else {
      assert (a + b)[1..] == a[1..] + b;
      IsAsciiWordConcat(a[1..], b);
    }
  }

  /** One character outside ASCII anywhere makes the word non-English. */
  lemma NonAsciiCharacter(a: string, c: char, b: string)
    requires c as int >= 128
    ensures !IsAsciiWord(a + [c] + b)
  {
    IsAsciiWordConcat(a + [c], b);
    IsAsciiWordConcat(a, [c]);
  }

  /** The two words the script runs the chain on. */
  lemma Examples()
    ensures IsEnglish(map[WordKey := "happy"]) == Ok(true)
    ensures IsEnglish(map[WordKey := "행복"]) == Ok(false)
  {
    IsAsciiWordIff("happy");
    assert "행복"[0] as int >= 128;
  }

  // ------------------------------------------------------------------
  // The branch
  // ------------------------------------------------------------------

  datatype Branch = English | Korean

  /** "Give me 3 synonyms for {word}. Only list the words". */
  function EnglishPrompt(word: string): string {
    "Give me 3 synonyms for " + word + ". Only list the words"
  }

  /** "주어진 '{word}'와 유사한 단어 3가지를 나열해주세요. 단어만 나열합니다." */
  function KoreanPrompt(word: string): string {
    "주어진 '" + word + "'와 유사한 단어 3가지를 나열해주세요. 단어만 나열합니다."
  }

  /** `RunnableBranch((is_english, english), korean)`: the first branch whose condition holds. */
  function SelectBranch(x: map<string, string>): (r: Result<Branch, KeyError>)
    ensures r.Err? <==> WordKey !in x
    ensures r == Ok(English) <==> WordKey in x && forall i :: 0 <= i < |x[WordKey]| ==> x[WordKey][i] as int < 128
  {
    var condition := IsEnglish(x);
    IsAsciiWordIff(if WordKey in x then x[WordKey] else "");
    match condition
    case Err(e) => Err(e)
    case Ok(english) => if english then Ok(English) else Ok(Korean)
  }

  /** The prompt the chain sends to the model for input `x`. */
  function Prompt(x: map<string, string>): (r: Result<string, KeyError>)
    ensures r.Err? <==> WordKey !in x
  {
    match SelectBranch(x)
    case Err(e) => Err(e)
    case Ok(English) => Ok(EnglishPrompt(x[WordKey]))
    case Ok(Korean) => Ok(KoreanPrompt(x[WordKey]))
  }

  /** The English prompt is sent exactly when `is_english` holds, the Korean one otherwise. */
  lemma PromptFollowsIsEnglish(x: map<string, string>)
    requires WordKey in x
    ensures IsEnglish(x) == Ok(true) ==> Prompt(x) == Ok(EnglishPrompt(x[WordKey]))
    ensures IsEnglish(x) == Ok(false) ==> Prompt(x) == Ok(KoreanPrompt(x[WordKey]))
  {
  }

  lemma PromptExamples()
    ensures Prompt(map[WordKey := "happy"]) == Ok(EnglishPrompt("happy"))
    ensures Prompt(map[WordKey := "행복"]) == Ok(KoreanPrompt("행복"))
  {
    Examples();
  }
}
