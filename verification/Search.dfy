/** Provider search: the SQL query built clause by clause, against the in-memory fallback. */
module Search {
  datatype SearchFilter = SearchFilter(
    status: string, gpuModel: string, minMemoryMB: int, minCPUCores: int, minDiskGB: int,
    maxPricePerHour: real, limit: int, offset: int)

  /** The searchable part of a provider; gpus lists the GPU names. */
  datatype Provider = Provider(
    status: string, gpus: seq<string>, totalMemoryMB: int, cpuCores: int, availableDiskGB: int, gpuPricePerHour: real)

  datatype Column = StatusEq | ModelILike | MemoryGe | CPUGe | DiskGe | PriceLe

  /** A clause "AND column op $placeholder" of the WHERE part. */
  datatype Clause = Clause(column: Column, placeholder: nat)

  datatype Argument = Text(text: string) | Number(number: int) | Amount(amount: real)

  datatype Query = Query(clauses: seq<Clause>, limit: int, offset: int)

  // ---------------------------------------------------------------- text

  function LowerChar(c: char): char {
    if 'A' <= c <= 'Z' then c - 'A' + 'a' else c
  }

  function Lower(s: string): (r: string)
    ensures |r| == |s| && forall i :: 0 <= i < |s| ==> r[i] == LowerChar(s[i])
  {
    if s == "" then "" else [LowerChar(s[0])] + Lower(s[1..])
  }

  ghost predicate Contains(s: string, part: string) {
    exists i :: 0 <= i <= |s| && part <= s[i..]
  }

  /** The LIKE operator: % stands for any text, _ for one character, a backslash quotes the next one. */
  predicate Like(s: string, pattern: string)
    decreases |s| + |pattern|
  {
    if pattern == "" then s == ""
    else if pattern[0] == '%' then Like(s, pattern[1..]) || (s != "" && Like(s[1..], pattern))
    else if pattern[0] == '_' then s != "" && Like(s[1..], pattern[1..])
    else if pattern[0] == '\\' && 2 <= |pattern| then s != "" && s[0] == pattern[1] && Like(s[1..], pattern[2..])
    else s != "" && s[0] == pattern[0] && Like(s[1..], pattern[1..])
  }

  predicate Plain(s: string) {
    forall i :: 0 <= i < |s| ==> s[i] != '%' && s[i] != '_' && s[i] != '\\'
  }

  lemma {:induction false} LikeAnything(s: string)
    ensures Like(s, "%")
    decreases |s|
  {
    if s != "" {
      LikeAnything(s[1..]);
    }
  }

  lemma {:induction false} LikePrefix(s: string, part: string)
    requires Plain(part)
    ensures Like(s, part + "%") <==> part <= s
    decreases |part|
  {
    if part == "" {
      assert part + "%" == "%";
      LikeAnything(s);
    } else {
      assert (part + "%")[1..] == part[1..] + "%";
      assert (part + "%")[0] == part[0];
      if s != "" {
        LikePrefix(s[1..], part[1..]);
        assert part == [part[0]] + part[1..] && s == [s[0]] + s[1..];
      }
    }
  }

  lemma ContainsLater(s: string, part: string)
    requires s != ""
    ensures Contains(s, part) <==> part <= s || Contains(s[1..], part)
  {
    assert s[0..] == s;
    if Contains(s, part) {
      var i :| 0 <= i <= |s| && part <= s[i..];
      if i > 0 {
        assert s[1..][i - 1..] == s[i..];
      }
    }
    if Contains(s[1..], part) {
      var i :| 0 <= i <= |s[1..]| && part <= s[1..][i..];
      assert s[i + 1..] == s[1..][i..];
    }
  }

  /** For a text without wildcards, LIKE between two percent signs is containment. */
  lemma {:induction false} LikeIsContains(s: string, part: string)
    requires Plain(part)
    ensures Like(s, "%" + part + "%") <==> Contains(s, part)
    decreases |s|
  {
    var pattern := "%" + part + "%";
    assert pattern[1..] == part + "%";
    LikePrefix(s, part);
    assert s[0..] == s;
    if s == "" {
      assert Contains(s, part) <==> part <= s;
    } else {
      LikeIsContains(s[1..], part);
      ContainsLater(s, part);
    }
  }

  function Quoted(s: string): string {
    if s == "" then "" else ['\\', s[0]] + Quoted(s[1..])
  }

  /** A text whose every character is quoted is matched by itself only. */
  lemma {:induction false} LikeQuoted(s: string, text: string)
    ensures Like(s, Quoted(text)) <==> s == text
    decreases |text|
  {
    if text != "" {
      var pattern := Quoted(text);
      assert pattern[0] == '\\' && pattern[1] == text[0] && pattern[2..] == Quoted(text[1..]);
      if s != "" {
        LikeQuoted(s[1..], text[1..]);
        assert s == [s[0]] + s[1..] && text == [text[0]] + text[1..];
      }
    }
  }

  function Blanks(n: nat): string {
    if n == 0 then "" else "_" + Blanks(n - 1)
  }

  /** As many underscores match every text of that length, and no other. */
  lemma {:induction false} LikeBlanks(s: string, n: nat)
    ensures Like(s, Blanks(n)) <==> |s| == n
    decreases n
  {
    if n > 0 {
      assert Blanks(n)[0] == '_' && Blanks(n)[1..] == Blanks(n - 1);
      if s != "" {
        LikeBlanks(s[1..], n - 1);
      }
    }
  }

  // ---------------------------------------------------------------- the query

  /** The kind of argument a column is compared with. */
  predicate Fits(column: Column, arg: Argument) {
    match column
    case StatusEq => arg.Text?
    case ModelILike => arg.Text?
    case PriceLe => arg.Amount?
    case _ => arg.Number?
  }

  /** A clause whose placeholder points at an argument of the right kind. */
  predicate Bound(c: Clause, args: seq<Argument>) {
    1 <= c.placeholder <= |args| && Fits(c.column, args[c.placeholder - 1])
  }

  /** The placeholders are $1, $2, … in order, one for every argument. */
  predicate LinedUp(q: Query, args: seq<Argument>) {
    && |q.clauses| == |args|
    && forall i :: 0 <= i < |args| ==> q.clauses[i].placeholder == i + 1 && Bound(q.clauses[i], args)
  }

  /** The gpu_model column: the first GPU's name, empty without GPUs. */
  function ModelColumn(p: Provider): string {
    if p.gpus == [] then "" else p.gpus[0]
  }

  /** What a column test asks of a row. */
  predicate Test(column: Column, arg: Argument, p: Provider)
    requires Fits(column, arg)
  {
    match column
    case StatusEq => p.status == arg.text
    case ModelILike => Like(Lower(ModelColumn(p)), Lower(arg.text))
    case MemoryGe => p.totalMemoryMB >= arg.number
    case CPUGe => p.cpuCores >= arg.number
    case DiskGe => p.availableDiskGB >= arg.number
    case PriceLe => p.gpuPricePerHour <= arg.amount
  }

  predicate ClauseHolds(c: Clause, args: seq<Argument>, p: Provider)
    requires Bound(c, args)
  {
    Test(c.column, args[c.placeholder - 1], p)
  }

  /** The WHERE part of a query. */
  predicate Selects(q: Query, args: seq<Argument>, p: Provider)
    requires LinedUp(q, args)
  {
    forall i :: 0 <= i < |q.clauses| ==> ClauseHolds(q.clauses[i], args, p)
  }

  /** The conditions a filter asks of a provider in the database. */
  predicate Wanted(f: SearchFilter, p: Provider) {
    && (f.status != "" ==> p.status == f.status)
    && (f.gpuModel != "" ==> Like(Lower(ModelColumn(p)), Lower("%" + f.gpuModel + "%")))
    && (f.minMemoryMB > 0 ==> f.minMemoryMB <= p.totalMemoryMB)
    && (f.minCPUCores > 0 ==> f.minCPUCores <= p.cpuCores)
    && (f.minDiskGB > 0 ==> f.minDiskGB <= p.availableDiskGB)
    && (f.maxPricePerHour > 0.0 ==> p.gpuPricePerHour <= f.maxPricePerHour)
  }

  /** A query whose placeholders are numbered in order, one for every argument, asks of a row the test of each clause
      with the argument at its own place. */
  lemma SelectsInOrder(q: Query, args: seq<Argument>, p: Provider)
    requires |q.clauses| == |args|
    requires forall i :: 0 <= i < |args| ==> q.clauses[i].placeholder == i + 1 && Fits(q.clauses[i].column, args[i])
    ensures LinedUp(q, args)
    ensures Selects(q, args, p) <==> forall i :: 0 <= i < |args| ==> Test(q.clauses[i].column, args[i], p)
  {
    hide Test;
    assert forall i :: 0 <= i < |args| ==> Bound(q.clauses[i], args);
    assert forall i :: 0 <= i < |args| ==> ClauseHolds(q.clauses[i], args, p) == Test(q.clauses[i].column, args[i], p);
  }

  function EffectiveLimit(limit: int): int {
    if limit <= 0 || limit > 100 then 100 else limit
  }

  /** One more clause, numbered after the arguments so far. */
  method Append(q: Query, args: seq<Argument>, argIdx: nat, column: Column, arg: Argument)
    returns (q': Query, args': seq<Argument>, argIdx': nat)
    requires LinedUp(q, args) && argIdx == |args| + 1
    requires Fits(column, arg)
    ensures LinedUp(q', args') && argIdx' == |args'| + 1
    ensures forall p :: Selects(q', args', p) <==> Selects(q, args, p) && Test(column, arg, p)
  {
    var clause := Clause(column, argIdx);
    q' := q.(clauses := q.clauses + [clause]);
    args' := args + [arg];
    argIdx' := argIdx + 1;
    assert forall i :: 0 <= i < |args| ==> Bound(q.clauses[i], args) && q'.clauses[i] == q.clauses[i];
    hide Test;
    forall p ensures Selects(q', args', p) <==> Selects(q, args, p) && Test(column, arg, p) {
      assert forall i :: 0 <= i < |args| ==> ClauseHolds(q'.clauses[i], args', p) == ClauseHolds(q.clauses[i], args, p);
      assert q'.clauses[|args|] == clause;
      assert Selects(q', args', p) ==> ClauseHolds(clause, args', p);
    }
  }

  /** The active conditions of a filter, as column tests. */
  predicate Tested(f: SearchFilter, p: Provider) {
    && (f.status != "" ==> Test(StatusEq, Text(f.status), p))
    && (f.gpuModel != "" ==> Test(ModelILike, Text("%" + f.gpuModel + "%"), p))
    && (f.minMemoryMB > 0 ==> Test(MemoryGe, Number(f.minMemoryMB), p))
    && (f.minCPUCores > 0 ==> Test(CPUGe, Number(f.minCPUCores), p))
    && (f.minDiskGB > 0 ==> Test(DiskGe, Number(f.minDiskGB), p))
    && (f.maxPricePerHour > 0.0 ==> Test(PriceLe, Amount(f.maxPricePerHour), p))
  }

  lemma TestedIsWanted(f: SearchFilter, p: Provider)
    ensures Tested(f, p) == Wanted(f, p)
  {
  }

  lemma NumberedInOrder(q: Query, args: seq<Argument>)
    requires LinedUp(q, args)
    ensures |q.clauses| == |args|
    ensures forall i :: 0 <= i < |args| ==> q.clauses[i].placeholder == i + 1 && Fits(q.clauses[i].column, args[i])
  {
    forall i | 0 <= i < |args| ensures q.clauses[i].placeholder == i + 1 && Fits(q.clauses[i].column, args[i]) {
      assert Bound(q.clauses[i], args);
    }
  }

  /** The query the repository builds: for every combination of active filters the placeholders line up with
      the arguments, and the query selects exactly the wanted providers. */
  method BuildQuery(f: SearchFilter) returns (q: Query, args: seq<Argument>)
    ensures |q.clauses| == |args|
    ensures forall i :: 0 <= i < |args| ==> q.clauses[i].placeholder == i + 1 && Fits(q.clauses[i].column, args[i])
    ensures LinedUp(q, args)
    ensures forall p :: Selects(q, args, p) <==> Wanted(f, p)
    ensures q.limit == EffectiveLimit(f.limit) == (if 1 <= f.limit <= 100 then f.limit else 100)
    ensures q.offset == (if f.offset > 0 then f.offset else 0)
  {
    hide Test, Wanted, LinedUp, Selects;
    q, args := Query([], 0, 0), [];
    var argIdx := 1;
    NoClauses(q);
    if f.status != "" {
      q, args, argIdx := Append(q, args, argIdx, StatusEq, Text(f.status));
    }
    if f.gpuModel != "" {
      q, args, argIdx := Append(q, args, argIdx, ModelILike, Text("%" + f.gpuModel + "%"));
    }
    if f.minMemoryMB > 0 {
      q, args, argIdx := Append(q, args, argIdx, MemoryGe, Number(f.minMemoryMB));
    }
    if f.minCPUCores > 0 {
      q, args, argIdx := Append(q, args, argIdx, CPUGe, Number(f.minCPUCores));
    }
    if f.minDiskGB > 0 {
      q, args, argIdx := Append(q, args, argIdx, DiskGe, Number(f.minDiskGB));
    }
    if f.maxPricePerHour > 0.0 {
      q, args, argIdx := Append(q, args, argIdx, PriceLe, Amount(f.maxPricePerHour));
    }
    ghost var q0 := q;
    var limit := f.limit;
    if limit <= 0 || limit > 100 {
      limit := 100;
    }
    q := q.(limit := limit, offset := if f.offset > 0 then f.offset else 0);
    PaginationSelectsNothing(q0, q, args);
    NumberedInOrder(q, args);
    forall p ensures Selects(q, args, p) <==> Wanted(f, p) {
      TestedIsWanted(f, p);
    }
  }

  lemma NoClauses(q: Query)
    requires q.clauses == []
    ensures LinedUp(q, []) && forall p :: Selects(q, [], p)
  {
  }

  lemma PaginationSelectsNothing(q: Query, r: Query, args: seq<Argument>)
    requires LinedUp(q, args) && r.clauses == q.clauses
    ensures LinedUp(r, args) && forall p :: Selects(r, args, p) == Selects(q, args, p)
  {
  }

  // ---------------------------------------------------------------- the in-memory loop

  /** What the in-memory loop keeps: the model test is skipped for a provider without GPUs. */
  ghost predicate Kept(f: SearchFilter, p: Provider) {
    && (f.status == "" || p.status == f.status)
    && (f.gpuModel != "" && p.gpus != [] ==> Contains(Lower(p.gpus[0]), Lower(f.gpuModel)))
    && !(f.minMemoryMB > 0 && p.totalMemoryMB < f.minMemoryMB)
    && !(f.minCPUCores > 0 && p.cpuCores < f.minCPUCores)
    && !(f.minDiskGB > 0 && p.availableDiskGB < f.minDiskGB)
    && !(f.maxPricePerHour > 0.0 && p.gpuPricePerHour > f.maxPricePerHour)
  }

  method ContainsText(s: string, part: string) returns (found: bool)
    ensures found == Contains(s, part)
  {
    for i := 0 to |s| + 1
      invariant forall k :: 0 <= k < i ==> !(part <= s[k..])
    {
      if part <= s[i..] {
        return true;
      }
    }
    return false;
  }

  predicate Listed(results: seq<string>, ids: set<string>) {
    && (forall id :: id in ids ==> id in results)
    && (forall i :: 0 <= i < |results| ==> results[i] in ids)
    && (forall i, j :: 0 <= i < j < |results| ==> results[i] != results[j])
  }

  /** The fallback: visit the providers in map order, skip by the guards, append the rest. */
  method SearchInMemory(f: SearchFilter, providers: map<string, Provider>) returns (results: seq<string>)
    ensures Listed(results, set id | id in providers && Kept(f, providers[id]))
  {
    hide Kept;
    results := [];
    var rest := providers.Keys;
    while rest != {}
      invariant rest <= providers.Keys
      invariant forall id :: id in results <==> id in providers && id !in rest && Kept(f, providers[id])
      invariant forall i, j :: 0 <= i < j < |results| ==> results[i] != results[j]
      decreases |rest|
    {
      var id :| id in rest;
      rest := rest - {id};
      var keep := Passes(f, providers[id]);
      if keep {
        results := results + [id];
      }
    }
  }

  method Passes(f: SearchFilter, p: Provider) returns (keep: bool)
    ensures keep == Kept(f, p)
  {
    if f.status != "" && p.status != f.status {
      return false;
    }
    if f.gpuModel != "" && |p.gpus| > 0 {
      var found := ContainsText(Lower(p.gpus[0]), Lower(f.gpuModel));
      if !found {
        return false;
      }
    }
    if f.minMemoryMB > 0 && p.totalMemoryMB < f.minMemoryMB {
      return false;
    }
    if f.minCPUCores > 0 && p.cpuCores < f.minCPUCores {
      return false;
    }
    if f.minDiskGB > 0 && p.availableDiskGB < f.minDiskGB {
      return false;
    }
    if f.maxPricePerHour > 0.0 && p.gpuPricePerHour > f.maxPricePerHour {
      return false;
    }
    return true;
  }

  // ---------------------------------------------------------------- the twins agree

  lemma LowerConcat(s: string)
    ensures Lower("%" + s + "%") == "%" + Lower(s) + "%"
  {
  }

  /** The conditions of a filter other than the model. */
  predicate MeetsTheRest(f: SearchFilter, p: Provider) {
    && (f.status == "" || p.status == f.status)
    && (f.minMemoryMB <= 0 || f.minMemoryMB <= p.totalMemoryMB)
    && (f.minCPUCores <= 0 || f.minCPUCores <= p.cpuCores)
    && (f.minDiskGB <= 0 || f.minDiskGB <= p.availableDiskGB)
    && (f.maxPricePerHour <= 0.0 || p.gpuPricePerHour <= f.maxPricePerHour)
  }

  /** A provider is selected by the query and kept by the loop alike, for a model filter without LIKE wildcards,
      exactly unless the filter names a model and the provider, which has no GPU, meets all other conditions. */
  lemma TwinsAgree(f: SearchFilter, p: Provider)
    requires Plain(f.gpuModel)
    ensures (Wanted(f, p) <==> Kept(f, p)) <==> !(f.gpuModel != "" && p.gpus == [] && MeetsTheRest(f, p))
  {
    LowerConcat(f.gpuModel);
    if p.gpus != [] {
      LikeIsContains(Lower(p.gpus[0]), Lower(f.gpuModel));
    } else if f.gpuModel != "" {
      LikeIsContains("", Lower(f.gpuModel));
      assert !Contains("", Lower(f.gpuModel));
    }
  }

  /** A search for a T4 that the two answer differently: a provider without any GPU. */
  lemma NoGPUIsKept()
    ensures var f := SearchFilter("", "T4", 0, 0, 0, 0.0, 10, 0);
            var p := Provider("available", [], 32768, 8, 100, 0.5);
            Kept(f, p) && !Wanted(f, p)
  {
    var f := SearchFilter("", "T4", 0, 0, 0, 0.0, 10, 0);
    var p := Provider("available", [], 32768, 8, 100, 0.5);
    TwinsAgree(f, p);
    assert Kept(f, p);
  }

  /** What a database may return: the selected rows in some order, cut by offset and limit. */
  ghost predicate Returns(results: seq<string>, q: Query, args: seq<Argument>, table: map<string, Provider>)
    requires LinedUp(q, args)
  {
    exists all: seq<string> :: Cut(results, all, q, args, table)
  }

  predicate Cut(results: seq<string>, all: seq<string>, q: Query, args: seq<Argument>, table: map<string, Provider>)
    requires LinedUp(q, args)
  {
    && Listed(all, set id | id in table && Selects(q, args, table[id]))
    && var from := if q.offset <= |all| then q.offset else |all|;
       0 <= from && 0 <= q.limit
       && results == all[from..][..if q.limit <= |all| - from then q.limit else |all| - from]
  }

  lemma {:induction false} ListedSize(results: seq<string>, ids: set<string>)
    requires Listed(results, ids)
    ensures |results| == |ids|
    decreases |results|
  {
    if results == [] {
      assert ids == {};
    } else {
      var n := |results| - 1;
      assert results[n] in ids;
      forall id | id in ids - {results[n]} ensures id in results[..n] {
        assert id in results;
      }
      ListedSize(results[..n], ids - {results[n]});
    }
  }

  /** Search equivalence: over the same providers, each with a GPU, without wildcards and offset and with the
      matches within the limit, the database returns exactly what the in-memory loop keeps. */
  lemma SearchesAgree(f: SearchFilter, q: Query, args: seq<Argument>, table: map<string, Provider>, results: seq<string>)
    requires LinedUp(q, args) && (forall p :: Selects(q, args, p) <==> Wanted(f, p))
    requires q.limit == EffectiveLimit(f.limit) && q.offset == 0
    requires Plain(f.gpuModel) && (forall id :: id in table ==> table[id].gpus != [])
    requires Returns(results, q, args, table)
    requires |set id | id in table && Kept(f, table[id])| <= EffectiveLimit(f.limit)
    ensures Listed(results, set id | id in table && Kept(f, table[id]))
  {
    var all: seq<string> :| Cut(results, all, q, args, table);
    forall id | id in table ensures Selects(q, args, table[id]) <==> Kept(f, table[id]) {
      TwinsAgree(f, table[id]);
    }
    hide Selects, Kept, Wanted, LinedUp, EffectiveLimit, Plain;
    var kept := set id | id in table && Kept(f, table[id]);
    assert kept == set id | id in table && Selects(q, args, table[id]);
    ListedSize(all, kept);
    assert all[0..] == all && all[..|all|] == all;
  }

  /** The query of a listing of all providers: no conditions, and the limit its 1000 rows are clamped to. */
  ghost predicate ListAllQuery(q: Query, args: seq<Argument>) {
    LinedUp(q, args) && (forall p :: Selects(q, args, p)) && q.limit == EffectiveLimit(1000) && q.offset == 0
  }

  /** ListAll is a search without filters for 1000 rows. */
  method ListAll() returns (q: Query, args: seq<Argument>)
    ensures ListAllQuery(q, args)
  {
    q, args := BuildQuery(SearchFilter("", "", 0, 0, 0, 0.0, 1000, 0));
  }

  /** What the database may answer to a listing of all providers. */
  ghost predicate ListsAll(rows: seq<string>, table: map<string, Provider>) {
    exists q, args :: ListAllQuery(q, args) && Returns(rows, q, args, table)
  }

  /** The reload at boot asks for 1000 rows and gets at most 100: different rows of the table, all of them exactly
      when there are at most 100 providers. */
  lemma ReloadComplete(rows: seq<string>, table: map<string, Provider>)
    requires ListsAll(rows, table)
    ensures Listed(rows, set id | id in rows) && (forall id :: id in rows ==> id in table)
    ensures |rows| == if |table| <= 100 then |table| else 100
    ensures Listed(rows, table.Keys) <==> |table| <= 100
  {
    var q, args :| ListAllQuery(q, args) && Returns(rows, q, args, table);
    var all: seq<string> :| Cut(rows, all, q, args, table);
    assert table.Keys == set id | id in table && Selects(q, args, table[id]);
    ListedSize(all, table.Keys);
    assert all[0..] == all && all[..|all|] == all;
    if Listed(rows, table.Keys) {
      ListedSize(rows, table.Keys);
    }
  }
}
