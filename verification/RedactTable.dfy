/** The structural patterns in use. */
module RedactTable {
  import opened Utf8
  import opened Words
  import opened RedactPatterns

  function Keys(): seq<seq<byte>> {
    [Ascii("client_secret"), Ascii("access_token"), Ascii("private_key"), Ascii("auth_token"), Ascii("password"),
     Ascii("api_key"), Ascii("apikey"), Ascii("passwd"), Ascii("secret"), Ascii("token")]
  }

  function Patterns(): seq<Pattern> {
    [Exact(Ascii("AKIA"), 16, UpperDigit),
     Exact(Ascii("AIza"), 35, Base64Url),
     AtLeast([Ascii("ghp_"), Ascii("gho_"), Ascii("ghu_"), Ascii("ghs_"), Ascii("ghr_")], 36, AlNum),
     AtLeast([Ascii("sk-")], 20, Base64Url),
     Block(Ascii("-----BEGIN "), [Ascii("RSA "), Ascii("EC "), Ascii("OPENSSH "), Ascii("DSA "), []],
           Ascii("PRIVATE KEY-----"), Ascii("-----END ")),
     Header(Ascii("authorization:"), [Ascii("bearer"), Ascii("basic"), Ascii("token")], 8),
     Pair(Keys(), 6)]
  }

  /** The patterns in use mask at least one byte, between ASCII words. */
  lemma PatternsAreUsable()
    ensures AllUsable(Patterns())
  {
  }
}
