/** The body of a creation request and its declared validation rules. */
module Requests {
  import opened Common

  /** `expiresIn` is a Go `int`: a JSON number outside its range fails to
      decode and never reaches validation. */
  datatype ShorterRequest = ShorterRequest(originalUrl: string, customAlias: string, expiresIn: Option<Int64>)

  /** The URL check registered with the validator: whether
      `url.ParseRequestURI` accepts the text. */
  type UriCheck = string -> bool

  /** The validator's `alphanum`: ASCII letters and digits only. */
  predicate IsAlphanumeric(s: string)
  {
    forall i :: 0 <= i < |s| ==> 'a' <= s[i] <= 'z' || 'A' <= s[i] <= 'Z' || '0' <= s[i] <= '9'
  }

  /** `omitempty,alphanum,min=3,max=100`: the empty alias skips the other
      rules. */
  predicate ValidCustomAlias(alias: string)
    ensures alias == "" ==> ValidCustomAlias(alias)
    ensures ValidCustomAlias(alias) ==> IsAlphanumeric(alias) && |alias| <= 100
  {
    alias == "" || (IsAlphanumeric(alias) && 3 <= |alias| <= 100)
  }

  /** `required,url` on the original URL and the custom-alias rule;
      `expiresIn` carries no rule. */
  predicate ValidRequest(req: ShorterRequest, parsesAsUri: UriCheck)
    ensures ValidRequest(req, parsesAsUri) ==>
              req.originalUrl != "" && parsesAsUri(req.originalUrl) && |req.customAlias| <= 100
  {
    req.originalUrl != "" && parsesAsUri(req.originalUrl) && ValidCustomAlias(req.customAlias)
  }

  /** What the validator rejects: a missing or unparsable URL, a custom
      alias of one or two characters or over 100, or one with a character
      that is not an ASCII letter or digit. The expiry never matters. */
  lemma ValidationRejects(req: ShorterRequest, parsesAsUri: UriCheck)
    ensures req.originalUrl == "" ==> !ValidRequest(req, parsesAsUri)
    ensures !parsesAsUri(req.originalUrl) ==> !ValidRequest(req, parsesAsUri)
    ensures 0 < |req.customAlias| < 3 ==> !ValidRequest(req, parsesAsUri)
    ensures |req.customAlias| > 100 ==> !ValidRequest(req, parsesAsUri)
    ensures (exists i :: 0 <= i < |req.customAlias| && !('a' <= req.customAlias[i] <= 'z' ||
               'A' <= req.customAlias[i] <= 'Z' || '0' <= req.customAlias[i] <= '9')) ==>
              !ValidRequest(req, parsesAsUri)
    ensures ValidRequest(req, parsesAsUri) == ValidRequest(req.(expiresIn := None), parsesAsUri)
  {
  }

  /** What the validator accepts: a parsable URL with no custom alias, or
      with an alphanumeric one of 3 to 100 characters. */
  lemma ValidationAccepts(req: ShorterRequest, parsesAsUri: UriCheck)
    requires req.originalUrl != "" && parsesAsUri(req.originalUrl)
    ensures req.customAlias == "" ==> ValidRequest(req, parsesAsUri)
    ensures IsAlphanumeric(req.customAlias) && 3 <= |req.customAlias| <= 100 ==>
              ValidRequest(req, parsesAsUri)
  {
  }
}
