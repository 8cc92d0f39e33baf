/** The dedup keys of the XP drivers, as the strings the ledger's unique index sees. */
module XpKeys {

  type Id = string

  datatype Key =
    | RefereeKey(user: Id)
    | ReferrerKey(referee: Id)
    | UptimeKey(node: Id, day: string)
    | NftKey(holder: Id, month: string)
    | SocialKey(account: Id, provider: string)
    | EmailKey(owner: Id)

  predicate ColonFree(s: string) { ':' !in s }

  /** Only the last variable part has to be free of colons (a day, a month or a provider name); ids may hold any
      characters. */
  predicate Splittable(k: Key) {
    match k
    case UptimeKey(_, day) => ColonFree(day)
    case NftKey(_, month) => ColonFree(month)
    case SocialKey(_, provider) => ColonFree(provider)
    case _ => true
  }

  lemma ColonAfter(x: string, s: string)
    requires ColonFree(x)
    ensures var a := x + ":" + s;
            && a[|x|] == ':' && (forall i | 0 <= i < |x| :: a[i] != ':')
            && a[..|x|] == x && a[|x| + 1..] == s
  {
    var a := x + ":" + s;
    forall i | 0 <= i < |x| ensures a[i] != ':' { assert a[i] == x[i] && x[i] in x; }
  }

  lemma ColonBefore(x: string, s: string)
    requires ColonFree(s)
    ensures var a := x + ":" + s;
            && a[|x|] == ':' && (forall i | |x| < i < |a| :: a[i] != ':')
            && a[..|x|] == x && a[|x| + 1..] == s
  {
    var a := x + ":" + s;
    forall i | |x| < i < |a| ensures a[i] != ':' { assert a[i] == s[i - |x| - 1] && s[i - |x| - 1] in s; }
  }

  lemma SplitFirst(x: string, y: string, s: string, t: string)
    requires ColonFree(x) && ColonFree(y) && x + ":" + s == y + ":" + t
    ensures x == y && s == t
  {
    ColonAfter(x, s);
    ColonAfter(y, t);
    assert |x| == |y|;
  }

  lemma SplitLast(x: string, y: string, s: string, t: string)
    requires ColonFree(s) && ColonFree(t) && x + ":" + s == y + ":" + t
    ensures x == y && s == t
  {
    ColonBefore(x, s);
    ColonBefore(y, t);
    assert |x| == |y|;
  }

  /** A key is its driver's name, a colon, and the rest. */
  function Driver(k: Key): (d: string)
    ensures ColonFree(d)
  {
    match k
    case RefereeKey(_) => "referral"
    case ReferrerKey(_) => "referral"
    case UptimeKey(_, _) => "uptime"
    case NftKey(_, _) => "nft_held"
    case SocialKey(_, _) => "social_verified"
    case EmailKey(_) => "email_verified"
  }

  function Rest(k: Key): string {
    match k
    case RefereeKey(u) => u + ":" + "referee"
    case ReferrerKey(u) => u + ":" + "referrer"
    case UptimeKey(n, day) => n + ":" + day
    case NftKey(u, month) => u + ":" + month
    case SocialKey(u, provider) => u + ":" + provider
    case EmailKey(u) => u
  }

  function Render(k: Key): string { Driver(k) + ":" + Rest(k) }

  lemma DriversDiffer(a: Key, b: Key)
    requires Driver(a) == Driver(b)
    ensures (a.RefereeKey? || a.ReferrerKey?) == (b.RefereeKey? || b.ReferrerKey?)
    ensures a.UptimeKey? == b.UptimeKey? && a.NftKey? == b.NftKey? && a.SocialKey? == b.SocialKey? &&
        a.EmailKey? == b.EmailKey?
  {
    assert "referral"[0] == 'r' && "uptime"[0] == 'u' && "nft_held"[0] == 'n' && "social_verified"[0] == 's' &&
           "email_verified"[0] == 'e';
    assert Driver(a)[0] == Driver(b)[0];
  }

  lemma RestDecides(a: Key, b: Key)
    requires Splittable(a) && Splittable(b) && Driver(a) == Driver(b) && Rest(a) == Rest(b)
    ensures a == b
  {
    DriversDiffer(a, b);
    assert |"referee"| == 7 && |"referrer"| == 8;
    match a
    case EmailKey(_) =>
    case RefereeKey(u) =>
      SplitLast(u, if b.RefereeKey? then b.user else b.referee, "referee", if b.RefereeKey? then "referee"
        else "referrer");
    case ReferrerKey(u) =>
      SplitLast(u, if b.RefereeKey? then b.user else b.referee, "referrer", if b.RefereeKey? then "referee"
        else "referrer");
    case UptimeKey(n, day) => SplitLast(n, b.node, day, b.day);
    case NftKey(u, month) => SplitLast(u, b.holder, month, b.month);
    case SocialKey(u, provider) => SplitLast(u, b.account, provider, b.provider);
  }

  /** Two drivers, or two awards of one driver, never share a dedup key. */
  lemma KeysNeverCollide(a: Key, b: Key)
    requires Splittable(a) && Splittable(b)
    ensures Render(a) == Render(b) <==> a == b
    ensures Render(a) != ""
  {
    if Render(a) == Render(b) {
      SplitFirst(Driver(a), Driver(b), Rest(a), Rest(b));
      RestDecides(a, b);
    }
  }

  lemma Regroup(a: string, b: string, c: string)
    ensures a + ":" + (b + ":" + c) == a + ":" + b + ":" + c
  {
  }

  /** The keys as they are stored. */
  lemma KeyTexts(u: Id, text: string)
    ensures Render(RefereeKey(u)) == "referral" + ":" + u + ":" + "referee"
    ensures Render(ReferrerKey(u)) == "referral" + ":" + u + ":" + "referrer"
    ensures Render(UptimeKey(u, text)) == "uptime" + ":" + u + ":" + text
    ensures Render(NftKey(u, text)) == "nft_held" + ":" + u + ":" + text
    ensures Render(SocialKey(u, text)) == "social_verified" + ":" + u + ":" + text
    ensures Render(EmailKey(u)) == "email_verified" + ":" + u
  {
    Regroup("referral", u, "referee");
    Regroup("referral", u, "referrer");
    Regroup("uptime", u, text);
    Regroup("nft_held", u, text);
    Regroup("social_verified", u, text);
  }
}
