/** The regular-expression matcher of grep.c, against a declarative meaning of patterns. Patterns and
    texts are C strings without their NUL. */
module Grep {

  /** One piece of a pattern: a character, a starred character, or a final $. */
  datatype Item = One(c: char) | Many(c: char) | End

  function Items(re: string): (items: seq<Item>) {
    if re == [] then []
    else if |re| > 1 && re[1] == '*' then [Many(re[0])] + Items(re[2..])
    else if re == "$" then [End]
    else [One(re[0])] + Items(re[1..])
  }

  function Render(items: seq<Item>): (re: string) {
    if items == [] then []
    else (match items[0]
          case One(c) => [c]
          case Many(c) => [c, '*']
          case End => "$") + Render(items[1..])
  }

  /** Reading a pattern as items loses nothing of it. */
  lemma {:induction false} RenderItems(re: string)
    ensures Render(Items(re)) == re
  {
    var items := Items(re);
    if re == [] || re == "$" {
      assert Render([]) == [];
      assert re == "$" ==> items[1..] == [];
    } else if |re| > 1 && re[1] == '*' {
      assert items[1..] == Items(re[2..]);
      RenderItems(re[2..]);
    } else {
      assert items[1..] == Items(re[1..]);
      RenderItems(re[1..]);
    }
  }

  predicate Starry(item: Item) {
    item == One('*') || item == Many('*')
  }

  predicate PlaceOk(items: seq<Item>, k: nat)
    requires k < |items|
  {
    && (items[k].End? ==> k == |items| - 1) && (items[k] == One('$') ==> k < |items| - 1)
    && (items[k].One? && k + 1 < |items| ==> !Starry(items[k + 1]))
  }

  /** What a pattern can be read as: $ as an end comes last, $ as a character does not, and a star never
      follows a plain character. */
  predicate Readable(items: seq<Item>) {
    forall k: nat :: k < |items| ==> PlaceOk(items, k)
  }

  lemma {:induction false} ItemsReadable(re: string)
    ensures Readable(Items(re))
    ensures re != [] ==> Items(re) != [] && (Starry(Items(re)[0]) <==> re[0] == '*')
  {
    if |re| > 1 && re[1] == '*' {
      ItemsReadable(re[2..]);
      ReadableMore(Many(re[0]), Items(re[2..]));
    } else if re != [] && re != "$" {
      ItemsReadable(re[1..]);
      ReadableMore(One(re[0]), Items(re[1..]));
    }
  }

  lemma ReadableMore(item: Item, items: seq<Item>)
    requires !item.End? && (item == One('$') ==> items != [])
    requires item.One? && items != [] ==> !Starry(items[0])
    ensures Readable([item] + items) <==> Readable(items)
  {
    var all := [item] + items;
    if Readable(items) {
      forall k: nat | k < |all| ensures PlaceOk(all, k) {
        assert k > 0 ==> PlaceOk(items, k - 1) && all[k] == items[k - 1];
      }
    }
    if Readable(all) {
      forall k: nat | k < |items| ensures PlaceOk(items, k) {
        var next := k + 1;
        assert PlaceOk(all, next) && all[next] == items[k];
      }
    }
  }

  /** Items and Render are inverse to each other, exactly on the readable lists. */
  lemma ItemsRender(items: seq<Item>)
    ensures Items(Render(items)) == items <==> Readable(items)
  {
    ItemsReadable(Render(items));
    if Readable(items) {
      ReadsBack(items);
    }
  }

  lemma {:induction false} ReadsBack(items: seq<Item>)
    requires Readable(items)
    ensures Items(Render(items)) == items
    ensures items != [] ==> Render(items) != [] && (Render(items)[0] == '*' <==> Starry(items[0]))
  {
    if items != [] {
      assert PlaceOk(items, 0);
      var item, rest := items[0], items[1..];
      assert items == [item] + rest;
      if item.End? {
        assert rest == [] && Render(items) == "$";
      } else {
        ReadableMore(item, rest);
        ReadsBack(rest);
        FirstRead(item, rest);
      }
    }
  }

  lemma FirstRead(item: Item, rest: seq<Item>)
    requires !item.End? && Items(Render(rest)) == rest && (item == One('$') ==> rest != [])
    requires rest != [] ==> Render(rest) != []
    requires item.One? && rest != [] ==> Render(rest)[0] != '*'
    ensures Items(Render([item] + rest)) == [item] + rest && Render([item] + rest) != []
            && Render([item] + rest)[0] == item.c
  {
    assert ([item] + rest)[1..] == rest;
    var re := Render([item] + rest);
    match item
    case One(c) =>
      assert re == [c] + Render(rest) && re[1..] == Render(rest);
      assert rest == [] ==> Render(rest) == [];
    case Many(c) =>
      assert re == [c, '*'] + Render(rest) && re[2..] == Render(rest);
  }

  predicate Fits(c: char, x: char) {
    c == '.' || c == x
  }

  predicate AllFit(c: char, w: string) {
    forall i :: 0 <= i < |w| ==> Fits(c, w[i])
  }

  /** Word w belongs to the language of an item. */
  predicate Spells(item: Item, w: string) {
    match item
    case One(c) => |w| == 1 && Fits(c, w[0])
    case Many(c) => AllFit(c, w)
    case End => w == []
  }

  function Concat(ws: seq<string>): (w: string) {
    if ws == [] then [] else ws[0] + Concat(ws[1..])
  }

  /** The words ws spell the items one by one and start the text; with a final $ they are all of it. */
  ghost predicate Split(items: seq<Item>, ws: seq<string>, text: string) {
    && |ws| == |items| && (forall i :: 0 <= i < |ws| ==> Spells(items[i], ws[i]))
    && Concat(ws) <= text && (End in items ==> Concat(ws) == text)
  }

  /** The text begins with a string in the language of the pattern. */
  ghost predicate Begins(items: seq<Item>, text: string) {
    exists ws :: Split(items, ws, text)
  }

  // ----- how the language unfolds -----

  lemma BeginsEmpty(text: string)
    ensures Begins([], text)
  {
    assert Split([], [], text);
  }

  lemma BeginsEnd(text: string)
    ensures Begins([End], text) <==> text == []
  {
    if text == [] {
      assert Concat([[]]) == [];
      assert Split([End], [[]], text);
    }
    if Begins([End], text) {
      var ws :| Split([End], ws, text);
      assert ws == [ws[0]] && Concat(ws) == ws[0] + Concat([]);
    }
  }

  /** Splitting off the word of the first item. */
  lemma SplitFirst(item: Item, items: seq<Item>, ws: seq<string>, text: string)
    requires item != End && |ws| > 0
    ensures Split([item] + items, ws, text)
       <==> Spells(item, ws[0]) && ws[0] <= text && Split(items, ws[1..], text[|ws[0]|..])
  {
    var all := [item] + items;
    assert Concat(ws) == ws[0] + Concat(ws[1..]);
    if Split(all, ws, text) {
      assert forall i :: 0 <= i < |ws[1..]| ==> Spells(items[i], ws[1..][i]) by {
        assert forall i :: 0 <= i < |ws[1..]| ==> items[i] == all[i + 1] && ws[1..][i] == ws[i + 1];
      }
      assert text[|ws[0]|..][..|Concat(ws[1..])|] == Concat(ws[1..]);
      assert End in items ==> End in all;
    }
    if Spells(item, ws[0]) && ws[0] <= text && Split(items, ws[1..], text[|ws[0]|..]) {
      forall i | 0 <= i < |ws| ensures Spells(all[i], ws[i]) {
        if i > 0 {
          assert all[i] == items[i - 1] && ws[i] == ws[1..][i - 1];
        }
      }
      assert text == ws[0] + text[|ws[0]|..];
      assert End in all ==> End in items;
    }
  }

  lemma BeginsOne(c: char, items: seq<Item>, text: string)
    ensures Begins([One(c)] + items, text) <==> text != [] && Fits(c, text[0]) && Begins(items, text[1..])
  {
    if Begins([One(c)] + items, text) {
      var ws :| Split([One(c)] + items, ws, text);
      SplitFirst(One(c), items, ws, text);
    }
    if text != [] && Fits(c, text[0]) && Begins(items, text[1..]) {
      var ws :| Split(items, ws, text[1..]);
      var all := [[text[0]]] + ws;
      assert all[1..] == ws;
      SplitFirst(One(c), items, all, text);
    }
  }

  /** A starred item takes any number of fitting characters, zero included. */
  lemma BeginsMany(c: char, items: seq<Item>, text: string)
    ensures Begins([Many(c)] + items, text)
       <==> exists j :: 0 <= j <= |text| && AllFit(c, text[..j]) && Begins(items, text[j..])
  {
    if Begins([Many(c)] + items, text) {
      var ws :| Split([Many(c)] + items, ws, text);
      SplitFirst(Many(c), items, ws, text);
      var j := |ws[0]|;
      assert text[..j] == ws[0];
      assert AllFit(c, text[..j]) && Begins(items, text[j..]);
    }
    if j :| 0 <= j <= |text| && AllFit(c, text[..j]) && Begins(items, text[j..]) {
      var ws :| Split(items, ws, text[j..]);
      var all := [text[..j]] + ws;
      assert all[1..] == ws;
      SplitFirst(Many(c), items, all, text);
    }
  }

  // ----- the matcher -----

  /** search for re at the beginning of text */
  method MatchHere(re: string, text: string) returns (r: bool)
    ensures r == Begins(Items(re), text)
    decreases |re|, 0
  {
    if re == [] {
      BeginsEmpty(text);
      return true;
    }
    if |re| > 1 && re[1] == '*' {
      r := MatchStar(re[0], re[2..], text);
      return;
    }
    if re == "$" {
      BeginsEnd(text);
      return text == [];
    }
    BeginsOne(re[0], Items(re[1..]), text);
    if text != [] && (re[0] == '.' || re[0] == text[0]) {
      r := MatchHere(re[1..], text[1..]);
      return;
    }
    return false;
  }

  /** search for c*re at the beginning of text */
  method MatchStar(c: char, re: string, text: string) returns (r: bool)
    ensures r == Begins([Many(c)] + Items(re), text)
    decreases |re|, 1
  {
    BeginsMany(c, Items(re), text);
    var i := 0;
    while true
      invariant 0 <= i <= |text| && AllFit(c, text[..i])
      invariant forall j :: 0 <= j < i ==> !Begins(Items(re), text[j..])
      decreases |text| - i
    {
      r := MatchHere(re, text[i..]);
      if r {
        return;
      }
      if !(i < |text| && (text[i] == c || c == '.')) {
        forall j | i < j <= |text| ensures !AllFit(c, text[..j]) {
          assert text[..j][i] == text[i];
        }
        return false;
      }
      i := i + 1;
    }
  }

  /** Some position of the text, or only its start under a leading ^, begins a string of the language. */
  ghost predicate Found(re: string, text: string) {
    if re != [] && re[0] == '^' then Begins(Items(re[1..]), text)
    else exists i :: 0 <= i <= |text| && Begins(Items(re), text[i..])
  }

  method Match(re: string, text: string) returns (r: bool)
    ensures r == Found(re, text)
  {
    if re != [] && re[0] == '^' {
      r := MatchHere(re[1..], text);
      return;
    }
    var i := 0;
    while true
      invariant 0 <= i <= |text|
      invariant forall j :: 0 <= j < i ==> !Begins(Items(re), text[j..])
      decreases |text| - i
    {
      r := MatchHere(re, text[i..]);
      if r {
        return;
      }
      if i == |text| {
        return false;
      }
      i := i + 1;
    }
  }
}
