// Object-key layout: a report's status is the key prefix (internal/storage/status.go).
module StatusKeys {
  datatype Status = Pending | Removed | Published

  // A report under a status, before it is spelled out as a store key.
  datatype Key = Key(status: Status, id: string)

  const REPORTS_PREFIX := "reports/"

  function StatusName(s: Status): string {
    match s
    case Pending => "pending"
    case Removed => "removed"
    case Published => "published"
  }

  function StatusPrefix(s: Status): string {
    REPORTS_PREFIX + StatusName(s) + "/"
  }

  function ReportKey(s: Status, id: string): string {
    StatusPrefix(s) + id
  }

  function Encode(k: Key): string {
    ReportKey(k.status, k.id)
  }

  // The layout, spelled out.
  lemma KeyLayout(id: string)
    ensures ReportKey(Pending, id) == "reports/pending/" + id
    ensures ReportKey(Removed, id) == "reports/removed/" + id
    ensures ReportKey(Published, id) == "reports/published/" + id
  {
    assert "reports/" + "pending" + "/" == "reports/pending/";
    assert "reports/" + "removed" + "/" == "reports/removed/";
    assert "reports/" + "published" + "/" == "reports/published/";
  }

  // The trailing slash is load-bearing: no key lies under two status prefixes.
  lemma PrefixesDisjoint(s: Status, t: Status, key: string)
    requires StatusPrefix(s) <= key && StatusPrefix(t) <= key
    ensures s == t
  {
    // "pending/" and "published/" differ at byte 9, "removed/" from both at byte 8.
    assert key[8] == StatusPrefix(s)[8] && key[9] == StatusPrefix(s)[9];
    assert key[8] == StatusPrefix(t)[8] && key[9] == StatusPrefix(t)[9];
  }

  // Distinct (status, id) pairs never share a key, whatever bytes an id contains.
  lemma KeyInjective(a: Key, b: Key)
    requires Encode(a) == Encode(b)
    ensures a == b
  {
    assert StatusPrefix(a.status) <= Encode(a);
    assert StatusPrefix(b.status) <= Encode(b);
    PrefixesDisjoint(a.status, b.status, Encode(a));
    assert Encode(a)[|StatusPrefix(a.status)|..] == a.id;
    assert Encode(b)[|StatusPrefix(b.status)|..] == b.id;
  }

  // Keys lie under a status prefix exactly when they spell a report of that status.
  lemma UnderPrefix(s: Status, key: string)
    ensures StatusPrefix(s) <= key <==> exists id :: key == ReportKey(s, id)
  {
    if StatusPrefix(s) <= key {
      assert key == ReportKey(s, key[|StatusPrefix(s)|..]);
    }
  }
}
