/** The text of one entry of the asteroid list (static/main.js:165-173). */
module Labels {
  import opened Results
  import opened Records
  import opened Sequences

  const WarningPrefix: string := "[Warning] "

  /** JavaScript's `s.replace(c, '')` with a one-character string pattern: only the first `c` goes. */
  function RemoveFirst(s: string, c: char): (r: string)
    ensures c !in s ==> r == s
    ensures c in s ==> |r| == |s| - 1
  {
    if |s| == 0 then ""
    else if s[0] == c then s[1..]
    else [s[0]] + RemoveFirst(s[1..], c)
  }

  /** Exactly one `c` goes when there is one; every other character stays. */
  lemma {:induction false} RemoveFirstKeepsOthers(s: string, c: char)
    ensures multiset(RemoveFirst(s, c)) + (if c in s then multiset{c} else multiset{}) == multiset(s)
  {
    if |s| > 0 {
      assert s == [s[0]] + s[1..];
      if s[0] != c {
        RemoveFirstKeepsOthers(s[1..], c);
      }
    }
  }

  /** The position of the first `c` in `s`. */
  function IndexOf(s: string, c: char): (i: nat)
    requires c in s
    ensures i < |s| && s[i] == c && c !in s[..i]
  {
    if s[0] == c then 0
    else
      var j := IndexOf(s[1..], c);
      assert s[..j + 1] == [s[0]] + s[1..][..j];
      j + 1
  }

  /** The removed character is the first `c`, and everything around it stays in place. */
  lemma {:induction false} RemoveFirstSplices(s: string, c: char)
    requires c in s
    ensures RemoveFirst(s, c) == s[..IndexOf(s, c)] + s[IndexOf(s, c) + 1..]
  {
    if s[0] != c {
      var t := s[1..];
      RemoveFirstSplices(t, c);
      var j := IndexOf(t, c);
      assert IndexOf(s, c) == j + 1;
      calc {
        RemoveFirst(s, c);
        [s[0]] + RemoveFirst(t, c);
        [s[0]] + (t[..j] + t[j + 1..]);
        { assert s[..j + 1] == [s[0]] + t[..j]; assert s[j + 2..] == t[j + 1..]; }
        s[..j + 1] + s[j + 2..];
      }
    }
  }

  /** Removing the first `c` and the first `d` does not depend on which goes first. */
  lemma {:induction false} RemoveFirstCommutes(s: string, c: char, d: char)
    ensures RemoveFirst(RemoveFirst(s, c), d) == RemoveFirst(RemoveFirst(s, d), c)
  {
    if |s| > 0 && s[0] != c && s[0] != d {
      RemoveFirstCommutes(s[1..], c, d);
      assert ([s[0]] + RemoveFirst(s[1..], c))[1..] == RemoveFirst(s[1..], c);
      assert ([s[0]] + RemoveFirst(s[1..], d))[1..] == RemoveFirst(s[1..], d);
    } else if |s| > 0 && s[0] == c && s[0] != d {
      assert ([s[0]] + RemoveFirst(s[1..], d))[1..] == RemoveFirst(s[1..], d);
    } else if |s| > 0 && s[0] == d && s[0] != c {
      assert ([s[0]] + RemoveFirst(s[1..], c))[1..] == RemoveFirst(s[1..], c);
    }
  }

  /** `name.replace('(', '').replace(')', '')` (static/main.js:165). */
  function CleanName(name: string): string {
    RemoveFirst(RemoveFirst(name, '('), ')')
  }

  /** The parentheses the two `replace` calls can take out of `name`: at most one of each. */
  function FirstParens(name: string): multiset<char> {
    (if '(' in name then multiset{'('} else multiset{})
    + (if ')' in name then multiset{')'} else multiset{})
  }

  /** What the label puts in front of the cleaned name. */
  function Tag(hazardous: bool): string {
    if hazardous then WarningPrefix else ""
  }

  /**
    The cleaned name is the original name with its first `(` and its first `)`
    removed: the second `replace` sees the same first `)` as the original.
   */
  lemma CleanNameRemovesFirstParens(name: string)
    ensures CleanName(name) == RemoveFirst(RemoveFirst(name, ')'), '(')
    ensures multiset(CleanName(name)) + FirstParens(name) == multiset(name)
  {
    RemoveFirstCommutes(name, '(', ')');
    var once := RemoveFirst(name, '(');
    RemoveFirstKeepsOthers(name, '(');
    RemoveFirstKeepsOthers(once, ')');
    assert multiset(once)[')'] == multiset(name)[')'];
    assert ')' in once <==> ')' in multiset(once);
    assert ')' in name <==> ')' in multiset(name);
  }

  /** Any text in front of the cleaned name stays, and the name loses exactly its first parentheses. */
  lemma TaggedCleanName(t: string, name: string)
    ensures IsPrefix(t, t + CleanName(name))
    ensures multiset(t + CleanName(name)) + FirstParens(name) == multiset(t) + multiset(name)
    ensures |t + CleanName(name)| + |FirstParens(name)| == |t| + |name|
    ensures '(' !in name && ')' !in name ==> t + CleanName(name) == t + name
  {
    var clean := CleanName(name);
    CleanNameRemovesFirstParens(name);
    assert (t + clean)[..|t|] == t;
    assert multiset(t + clean) == multiset(t) + multiset(clean);
    assert |multiset(clean)| == |clean|;
    assert |multiset(name)| == |name|;
  }

  /** The display name: the cleaned name, behind `[Warning] ` for a hazardous record (static/main.js:165-170). */
  function Label(rec: NeoRecord): string {
    Tag(rec.hazardous) + CleanName(rec.name)
  }

  /**
    A label is the record's name behind the tag of its hazard flag, less the
    first `(` and the first `)` of the name and nothing else: a name without
    parentheses appears verbatim.
   */
  lemma LabelFromName(rec: NeoRecord)
    ensures IsPrefix(Tag(rec.hazardous), Label(rec))
    ensures multiset(Label(rec)) + FirstParens(rec.name) == multiset(Tag(rec.hazardous)) + multiset(rec.name)
    ensures |Label(rec)| + |FirstParens(rec.name)| == |Tag(rec.hazardous)| + |rec.name|
    ensures '(' !in rec.name && ')' !in rec.name ==> Label(rec) == Tag(rec.hazardous) + rec.name
  {
    TaggedCleanName(Tag(rec.hazardous), rec.name);
  }

  /**
    A label starts with `[Warning] ` exactly when the record is hazardous,
    unless the cleaned name itself already starts with it.
   */
  lemma LabelWarnsIffHazardous(rec: NeoRecord)
    ensures IsPrefix(WarningPrefix, Label(rec)) <==> rec.hazardous || IsPrefix(WarningPrefix, CleanName(rec.name))
  {
  }

  /** JavaScript's `Math.round`: the nearest integer, halves rounded up. */
  function JsRound(x: real): (n: int)
    ensures n as real - 0.5 <= x < n as real + 0.5
  {
    (x + 0.5).Floor
  }

  /** One entry of the list: the label and the rounded size and distance (static/main.js:175-179). */
  datatype Item = Item(text: string, sizeM: int, distKm: int)

  /**
    The entry of one record. Reading the first close approach throws when
    there is none (static/main.js:173), before the entry is appended.
   */
  function ItemFor(rec: NeoRecord): (r: Result<Item, RecordError>)
    ensures r.Ok? <==> |rec.approaches| > 0
    ensures r.Ok? ==> r.value.text == Label(rec)
    ensures r.Ok? ==> r.value.sizeM as real - 0.5 <= rec.diameterMaxM < r.value.sizeM as real + 0.5
    ensures r.Ok? ==> r.value.distKm as real - 0.5 <= rec.approaches[0].missKm < r.value.distKm as real + 0.5
  {
    var text := Label(rec);
    var size := JsRound(rec.diameterMaxM);
    var km :- FirstMissKm(rec);
    Ok(Item(text, size, JsRound(km)))
  }
}
