/** The identity gate of src/utils.ts: `crypt` turns free text into a keyed
    digest, and `isRightUser` decides whether a stored digest is the one of
    the configured bank user. */
module Utils {

  /** A JavaScript value of type `T | null | undefined`. */
  datatype Nullable<T> = Undefined | Null | Value(value: T)

  /** What the gate reads from the process environment: the keyed digest
      (HMAC-SHA256 in hex, whose internals are not modelled, so any function
      of key and text), `SECRET` and `BBVA_USER`. */
  datatype Config = Config(hmac: (string, string) -> string, secret: string, bbvaUser: string)

  /** `crypt(text)`: the digest of `text` under `SECRET`. */
  function Crypt(cfg: Config, text: string): string {
    cfg.hmac(cfg.secret, text)
  }

  /** `isRightUser(user)`: `user` is a non-empty string (`!!user`) equal to
      the digest of `BBVA_USER`. */
  predicate IsRightUser(cfg: Config, user: Nullable<string>) {
    user.Value? && user.value != "" && user.value == Crypt(cfg, cfg.bbvaUser)
  }

  predicate IsHexDigit(c: char) {
    '0' <= c <= '9' || 'a' <= c <= 'f'
  }

  /** The shape of a SHA-256 digest rendered with `digest('hex')`. */
  predicate IsHexDigest(s: string) {
    |s| == 64 && forall i :: 0 <= i < |s| ==> IsHexDigit(s[i])
  }

  /** No two texts share a digest (true of HMAC-SHA256 with overwhelming
      probability, and assumed where a lemma needs it). */
  ghost predicate CryptInjective(cfg: Config) {
    forall a, b :: Crypt(cfg, a) == Crypt(cfg, b) ==> a == b
  }

  /** Absent, null and empty users are all rejected, and a present user is
      accepted exactly when it is non-empty and equals `crypt(BBVA_USER)`. */
  lemma IsRightUserCases(cfg: Config, user: string)
    ensures !IsRightUser(cfg, Undefined) && !IsRightUser(cfg, Null) && !IsRightUser(cfg, Value(""))
    ensures IsRightUser(cfg, Value(user)) <==> user != "" && user == Crypt(cfg, cfg.bbvaUser)
  {
  }

  /** Under fixed `SECRET` and digest, `crypt` depends on its text alone: the
      configured bank user does not enter it. */
  lemma CryptDependsOnSecretAndText(hmac: (string, string) -> string, secret: string, u1: string, u2: string, text: string)
    ensures Crypt(Config(hmac, secret, u1), text) == Crypt(Config(hmac, secret, u2), text)
  {
  }

  /** The digest of `BBVA_USER` itself passes the gate, since a hex digest is
      never empty. */
  lemma OwnDigestAccepted(cfg: Config)
    requires IsHexDigest(Crypt(cfg, cfg.bbvaUser))
    ensures IsRightUser(cfg, Value(Crypt(cfg, cfg.bbvaUser)))
  {
  }

  /** With a collision-free digest, the digest of a text passes the gate
      exactly when the text is `BBVA_USER`. */
  lemma DigestOfTextAccepted(cfg: Config, text: string)
    requires CryptInjective(cfg)
    requires Crypt(cfg, cfg.bbvaUser) != ""
    ensures IsRightUser(cfg, Value(Crypt(cfg, text))) <==> text == cfg.bbvaUser
  {
  }
}
