/** Vocabulary shared by every module of the model. */
module Basics {

  datatype Option<+T> = None | Some(value: T)

  datatype Result<+T, +E> = Ok(value: T) | Err(error: E)

  newtype byte = b: int | 0 <= b < 256
  type Bytes = seq<byte>

  datatype SecretType = Text | Json | Binary | Certificate | PrivateKey

  /** A secret in transit: its bytes and its declared type. */
  datatype Payload = Payload(bytes: Bytes, kind: SecretType)

  /** The one error of writing a target. */
  datatype TargetError = TargetFailed

  predicate AsciiDigit(c: char) { '0' <= c <= '9' }

  predicate AsciiAlnum(c: char) { 'a' <= c <= 'z' || 'A' <= c <= 'Z' || AsciiDigit(c) }

  predicate LabelChar(c: char) { AsciiAlnum(c) || c == '-' || c == '_' || c == '.' }

  /** The predicate `safe_label`: entry, binding and connection names. */
  predicate SafeLabel(s: string) { 0 < |s| <= 64 && forall c | c in s :: LabelChar(c) }

  /** The predicate `safe_version`. */
  predicate SafeVersion(s: string) { 0 < |s| <= 128 && forall c | c in s :: LabelChar(c) }

  /** Each value of the chain leads to the one after it, by the link between them. */
  ghost predicate Linked<A, B>(chain: seq<A>, links: seq<B>, next: (A, B, A) -> bool) {
    |chain| == |links| + 1 && forall i | 0 <= i < |links| :: next(chain[i], links[i], chain[i + 1])
  }

  lemma LinkedGrows<A, B>(chain: seq<A>, links: seq<B>, next: (A, B, A) -> bool, link: B, value: A)
    requires Linked(chain, links, next) && next(chain[|links|], link, value)
    ensures Linked(chain + [value], links + [link], next)
  {
    var longer, more := chain + [value], links + [link];
    forall i | 0 <= i < |more| ensures next(longer[i], more[i], longer[i + 1]) {
      if i < |links| {
        assert next(chain[i], links[i], chain[i + 1]);
      }
    }
  }
}
