/** The route middleware: the matcher that decides which requests reach it, and
    its `authorized` callback, under which dashboard paths need a token. */
module Middleware {
  import opened Common
  import Strings
  import Auth

  /** `path.startsWith("/dashboard") ? !!token : true`; a decoded token is an object
      and so always truthy. */
  predicate Authorized(path: string, token: Option<Auth.Record>)
  {
    if Strings.StartsWith(path, "/dashboard") then token.Some? else true
  }

  /** `matcher: ["/dashboard/:path*"]`: the dashboard root and every path below it,
      taking `:path*` as zero or more segments. */
  predicate Matched(path: string)
  {
    path == "/dashboard" || Strings.StartsWith(path, "/dashboard/")
  }

  /** A request passes the middleware when the matcher skips it or the callback allows it. */
  predicate Passes(path: string, token: Option<Auth.Record>)
  {
    !Matched(path) || Authorized(path, token)
  }

  /** Without a token the callback refuses every path that begins with the prefix,
      whatever follows it, and allows only paths that do not. */
  lemma PrefixGated(path: string)
    ensures forall q :: !Authorized("/dashboard" + q, None)
    ensures Authorized(path, None) ==> !exists q :: path == "/dashboard" + q
  {
    forall q ensures !Authorized("/dashboard" + q, None) {
      assert ("/dashboard" + q)[..|"/dashboard"|] == "/dashboard";
    }
  }

  /** With a token the callback allows every path. */
  lemma TokenAllowsAll(path: string, t: Auth.Record)
    ensures Authorized(path, Some(t))
  {
  }

  /** Every path the matcher selects reaches the callback and needs a token. */
  lemma MatchedNeedsToken(path: string, token: Option<Auth.Record>)
    requires Matched(path)
    ensures Passes(path, token) <==> token.Some?
  {
    if path != "/dashboard" {
      assert path[..|"/dashboard"|] == path[..|"/dashboard/"|][..|"/dashboard"|];
    }
  }

  /** The callback's test is a plain prefix, so on its own it would refuse
      "/dashboardx"; the matcher never sends that path to it, so the request passes. */
  lemma PrefixNotSegment()
    ensures !Authorized("/dashboardx", None) && Passes("/dashboardx", None)
    ensures !Passes("/dashboard/classes", None) && !Passes("/dashboard", None)
    ensures Authorized("/dash", None)
  {
    assert "/dashboardx"[..|"/dashboard"|] == "/dashboard";
    assert "/dashboard/classes"[..|"/dashboard/"|] == "/dashboard/";
    assert "/dashboard/classes"[..|"/dashboard"|] == "/dashboard";
    assert "/dashboardx"[..|"/dashboard/"|] != "/dashboard/" by {
      assert "/dashboardx"[10] == 'x';
    }
  }

  /** Only the presence of a token matters, never its contents. */
  lemma TokenContentsIgnored(path: string, t1: Auth.Record, t2: Auth.Record)
    ensures Passes(path, Some(t1)) == Passes(path, Some(t2))
  {
  }
}
