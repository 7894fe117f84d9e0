/** The tables in use. Every entry of them meets what the theorems about cleaning ask for. */
module ZaloTables {
  import opened Text
  import opened Normalizer

  const CODES := ["/-strong", "/-heart", "/-fade", "/-break", "/-rose"]

  const SMILES := [
    (":-)", "🙂"), (":)", "🙂"), (":-D", "😄"), (":D", "😄"), (";-)", "😉"), (";)", "😉"),
    (":-*", "😘"), (":-P", "😛"), (":-p", "😛")]
  const OTHER_EMOTICONS := [
    (":P", "😛"), (":p", "😛"), ("B-)", "😎"), ("b-)", "😎"),
    (":-(", "🙁"), (":(", "🙁"), (":-O", "😲"), (":-o", "😲"), ("<3", "❤️")]
  const INLINE_EMOTICONS := SMILES + OTHER_EMOTICONS

  const CODE_TOKENS := {"/-strong", "/-heart", "/-fade", "/-break", "/-rose"}
  const CRYING_TOKENS := {":>:o:-((", ":>:o:-(", ":-((", ":-(", ":("}
  const LETTER_TOKENS := {"(y)", "(L)", ":-bd", ":-D", ":D", ":-O", ":-o", ":-h", ":-S", ":-s"}
  const FACE_TOKENS := {":-P", ":-p", ":P", ":p", "B-)", "b-)", ";-)", ";)", ":-)", ":)"}
  const OTHER_TOKENS := {"<3", ":-<", ":@", ":-*", ":-?"}
  const LEGACY_TOKENS := CODE_TOKENS + CRYING_TOKENS + LETTER_TOKENS + FACE_TOKENS + OTHER_TOKENS

  const ZALO_TABLES := Tables(LEGACY_TOKENS, CODES, INLINE_EMOTICONS)

  predicate Visible(t: string) {
    t != "" && forall i :: 0 <= i < |t| ==> !IsWs(t[i]) && t[i] != '_'
  }

  lemma CodesAreValid()
    ensures ValidCodes(CODES)
  {
  }

  lemma SmilesAreValid()
    ensures forall e <- SMILES :: ValidEmoticon(e.0, e.1)
  {
  }

  lemma OtherEmoticonsAreValid()
    ensures forall e <- OTHER_EMOTICONS :: ValidEmoticon(e.0, e.1)
  {
  }

  lemma CodeTokensAreVisible()
    ensures forall t <- CODE_TOKENS :: Visible(t)
  {
  }

  lemma CryingTokensAreVisible()
    ensures forall t <- CRYING_TOKENS :: Visible(t)
  {
  }

  lemma LetterTokensAreVisible()
    ensures forall t <- LETTER_TOKENS :: Visible(t)
  {
  }

  lemma FaceTokensAreVisible()
    ensures forall t <- FACE_TOKENS :: Visible(t)
  {
  }

  lemma OtherTokensAreVisible()
    ensures forall t <- OTHER_TOKENS :: Visible(t)
  {
  }

  lemma ZaloTablesAreValid()
    ensures ValidTables(ZALO_TABLES)
  {
    CodeTokensAreVisible();
    CryingTokensAreVisible();
    LetterTokensAreVisible();
    FaceTokensAreVisible();
    OtherTokensAreVisible();
    assert forall t <- LEGACY_TOKENS :: Visible(t);
    CodesAreValid();
    SmilesAreValid();
    OtherEmoticonsAreValid();
  }
}
