// `basic_file_path.py`: the cancel word of the Portuguese prompts and the
// origin/destination prompt that validates both paths, creates the destination
// and changes into the origin. The two answers are parameters.

module BasicFilePath {
  import opened Wrappers
  import opened Strings
  import opened Clock
  import opened PosixPath
  import opened FileSystem
  import ManagerCore

  // ---------------------------------------------------------------- cancel

  /** `is_cancel_command(command)`: the stripped, lower-cased answer is
      `cancelar` or `-c`. */
  predicate IsCancelar(command: string) {
    Lower(Strip(command)) == "cancelar" || Lower(Strip(command)) == "-c"
  }

  /** Whitespace in front of an answer does not change the verdict. */
  lemma CancelarPadded(pad: string, s: string)
    requires forall i :: 0 <= i < |pad| ==> IsSpace(pad[i])
    ensures IsCancelar(pad + s) <==> IsCancelar(s)
  {
    StripPadded(pad, s);
  }

  /** The verdict ignores case: lower-casing the answer first changes nothing. */
  lemma CancelarLower(s: string)
    ensures IsCancelar(Lower(s)) <==> IsCancelar(s)
  {
    StripLower(s);
    LowerIdempotent(Strip(s));
  }

  /** Stripping and lower-casing commute, as whitespace has no case. */
  lemma StripLower(s: string)
    ensures Strip(Lower(s)) == Lower(Strip(s))
  {
    LStripLower(s);
    RStripLower(LStrip(s));
    assert Strip(Lower(s)) == RStrip(LStrip(Lower(s)));
    assert Strip(s) == RStrip(LStrip(s));
  }

  lemma LStripLower(s: string)
    ensures LStrip(Lower(s)) == Lower(LStrip(s))
  {
    LeadingLower(s);
    assert Lower(s)[LeadingSpaces(s)..] == Lower(s[LeadingSpaces(s)..]);
  }

  lemma RStripLower(t: string)
    ensures RStrip(Lower(t)) == Lower(RStrip(t))
  {
    TrailingLower(t);
    assert Lower(t)[..|t| - TrailingSpaces(t)] == Lower(t[..|t| - TrailingSpaces(t)]);
  }

  lemma {:induction false} LeadingLower(s: string)
    ensures LeadingSpaces(Lower(s)) == LeadingSpaces(s)
    decreases |s|
  {
    if s != [] {
      assert Lower(s)[1..] == Lower(s[1..]);
      LeadingLower(s[1..]);
    }
  }

  lemma {:induction false} TrailingLower(s: string)
    ensures TrailingSpaces(Lower(s)) == TrailingSpaces(s)
    decreases |s|
  {
    if s != [] {
      assert Lower(s)[..|s| - 1] == Lower(s[..|s| - 1]);
      TrailingLower(s[..|s| - 1]);
    }
  }

  // ---------------------------------------------------------------- the session

  /** A line the Portuguese scripts print on the console. */
  datatype Line =
    | Cancelled | Missing(origin: string) | SameFolder
    | Moved(file: string) | Failed(file: string) | Skipped(file: string)
    | InvalidIndex(number: int) | InvalidInput | NoMatch(extension: string)

  /** A message handed to the logger of `basic_file_path.py`. */
  datatype Record =
    | OriginChosen(origin: string) | OriginCancelled | OriginMissing(origin: string)
    | DestinationChosen(destination: string) | DestinationCancelled | Identical

  /** The process the prompt runs in: the tree, the working directory, what
      has been printed, and the messages handed to the module's logger (their
      file format belongs to `implant_logging`, which is not part of this model). */
  datatype Session = Session(fs: Fs, cwd: Path, out: seq<Line>, logged: seq<Record>)

  /** What `basic_file_path()` gives back: `(None, None)`, the two answers, or
      an exception out of `makedirs` or `chdir`. */
  datatype Answer = NoPaths | Paths(origin: string, destination: string) | Raised

  /** `str(k)` for any integer. */
  function IntText(k: int): string {
    if k < 0 then "-" + NatToString(-k) else NatToString(k)
  }

  /** The words of each console line. */
  function Text(l: Line): string {
    match l
    case Cancelled => "Operação cancelada pelo usuário."
    case Missing(o) => "Erro: O diretório \"" + o + "\" não existe."
    case SameFolder => "Erro: O diretório de destino não pode ser o mesmo que o de origem."
    case Moved(f) => "Arquivo '" + f + "' movido com sucesso."
    case Failed(f) => "Erro ao mover o arquivo \"" + f + "\": " + ManagerCore.OsErrorText
    case Skipped(f) => "'" + f + "' não é um arquivo, pulando..."
    case InvalidIndex(k) => "Índice " + IntText(k) + " inválido."
    case InvalidInput => "Entrada inválida. Por favor, use números separados por vírgula."
    case NoMatch(e) => "Nenhum arquivo com extensão " + e + " encontrado."
  }

  /** The words of each log message; the two cancel records differ in one accent. */
  function RecordText(r: Record): string {
    match r
    case OriginChosen(o) => "O usuario definiu o diretório de origem: " + o
    case OriginCancelled => "O usuário cancelou a operação."
    case OriginMissing(o) => "O diretório de origem não existe: " + o
    case DestinationChosen(d) => "O usuário definiu o diretório de destino: " + d
    case DestinationCancelled => "O usuario cancelou a operação."
    case Identical => "Erro: Diretórios idênticos"
  }

  /** The answers the prompt turns down before touching the tree: a cancel
      word at either question, a missing origin, or two paths with the same
      absolute path. */
  predicate Declines(fs: Fs, cwd: Path, origin: string, destination: string) {
    || IsCancelar(origin)
    || !Exists(fs, cwd, origin)
    || IsCancelar(destination)
    || AbsPath(PathString(cwd), origin) == AbsPath(PathString(cwd), destination)
  }

  /** `os.makedirs(destination, exist_ok=True)` then `os.chdir(origin)`, neither
      guarded: either may raise out of the call, `makedirs` on the empty path or
      a file in the way, `chdir` on an origin that is not a directory. */
  function Prepare(s: Session, now: Moment, origin: string, destination: string): (r: (Answer, Session))
    requires Exists(s.fs, s.cwd, origin)
    ensures r.0 != NoPaths
    ensures r.1.out == s.out && r.1.logged == s.logged
    ensures r.0.Paths? <==>
              destination != "" && MakeDirs(s.fs, Resolve(s.cwd, destination), now).Some?
              && IsDirAt(s.fs, s.cwd, origin)
    ensures r.0.Paths? ==>
              && r.0 == Paths(origin, destination)
              && r.1.cwd == Resolve(s.cwd, origin) && IsDir(r.1.fs, r.1.cwd)
              && IsDirAt(r.1.fs, s.cwd, destination)
    ensures r.0.Raised? ==> r.1.cwd == s.cwd
    ensures forall q :: q in s.fs ==> q in r.1.fs && r.1.fs[q] == s.fs[q]
    ensures forall q :: q in r.1.fs && q !in s.fs ==> q <= Resolve(s.cwd, destination) && r.1.fs[q] == Dir(now)
  {
    if destination == "" then (Raised, s)
    else match MakeDirs(s.fs, Resolve(s.cwd, destination), now)
      case None => (Raised, s)
      case Some(fs1) =>
        if IsDir(fs1, Resolve(s.cwd, origin)) then (Paths(origin, destination), s.(fs := fs1, cwd := Resolve(s.cwd, origin)))
        else (Raised, s.(fs := fs1))
  }

  /** `basic_file_path()` with its two answers. The destination is asked only
      after the origin has passed; the tree is touched only once all four
      checks have passed. */
  function BasicFilePath(s: Session, now: Moment, origin: string, destination: string): (r: (Answer, Session))
    ensures r.0 == NoPaths <==> Declines(s.fs, s.cwd, origin, destination)
    ensures r.0 == NoPaths ==> r.1.fs == s.fs && r.1.cwd == s.cwd && |r.1.out| == |s.out| + 1
    ensures r.0 != NoPaths ==> r.1.out == s.out
    ensures IsCancelar(origin) ==> r.1.out == s.out + [Cancelled]
    ensures !IsCancelar(origin) && !Exists(s.fs, s.cwd, origin) ==> r.1.out == s.out + [Missing(origin)]
    ensures r.0.Paths? ==>
              && r.0 == Paths(origin, destination)
              && r.1.cwd == Resolve(s.cwd, origin) && IsDir(r.1.fs, r.1.cwd)
              && IsDirAt(r.1.fs, s.cwd, destination)
    ensures r.0.Raised? <==>
              !Declines(s.fs, s.cwd, origin, destination)
              && (destination == "" || MakeDirs(s.fs, Resolve(s.cwd, destination), now).None?
                  || !IsDirAt(s.fs, s.cwd, origin))
  {
    var s1 := s.(logged := s.logged + [OriginChosen(origin)]);
    if IsCancelar(origin) then
      (NoPaths, s1.(out := s.out + [Cancelled], logged := s1.logged + [OriginCancelled]))
    else if !Exists(s.fs, s.cwd, origin) then
      (NoPaths, s1.(out := s.out + [Missing(origin)], logged := s1.logged + [OriginMissing(origin)]))
    else
      var s2 := s1.(logged := s1.logged + [DestinationChosen(destination)]);
      if IsCancelar(destination) then
        (NoPaths, s2.(out := s.out + [Cancelled], logged := s2.logged + [DestinationCancelled]))
      else if AbsPath(PathString(s.cwd), origin) == AbsPath(PathString(s.cwd), destination) then
        (NoPaths, s2.(out := s.out + [SameFolder], logged := s2.logged + [Identical]))
      else Prepare(s2, now, origin, destination)
  }

  /** The prompt only adds to the tree: what existed stays as it was, and
      what is new is a directory on the way to the destination. */
  lemma BasicFilePathKeeps(s: Session, now: Moment, origin: string, destination: string)
    ensures var r := BasicFilePath(s, now, origin, destination);
            && (forall q :: q in s.fs ==> q in r.1.fs && r.1.fs[q] == s.fs[q])
            && (forall q :: q in r.1.fs && q !in s.fs ==> q <= Resolve(s.cwd, destination) && r.1.fs[q] == Dir(now))
  {
    if !Declines(s.fs, s.cwd, origin, destination) {
      var s2 := s.(logged := s.logged + [OriginChosen(origin)] + [DestinationChosen(destination)]);
      assert BasicFilePath(s, now, origin, destination) == Prepare(s2, now, origin, destination);
    }
  }

  /** Whatever happens, the first record is the origin the user typed, after
      the records already made. */
  lemma BasicFilePathRecords(s: Session, now: Moment, origin: string, destination: string)
    ensures var r := BasicFilePath(s, now, origin, destination);
            |r.1.logged| > |s.logged| && r.1.logged[..|s.logged| + 1] == s.logged + [OriginChosen(origin)]
  {
    var s1 := s.(logged := s.logged + [OriginChosen(origin)]);
    var r := BasicFilePath(s, now, origin, destination);
    assert s1.logged <= r.1.logged;
  }

  /** `basic_file_path()` as the source runs it: one early return per check. */
  method BasicFilePathIn(s: Session, now: Moment, origin: string, destination: string)
    returns (answer: Answer, s': Session)
    ensures (answer, s') == BasicFilePath(s, now, origin, destination)
  {
    s' := s.(logged := s.logged + [OriginChosen(origin)]);
    if IsCancelar(origin) {
      s' := s'.(out := s'.out + [Cancelled], logged := s'.logged + [OriginCancelled]);
      return NoPaths, s';
    }
    if !Exists(s'.fs, s'.cwd, origin) {
      s' := s'.(out := s'.out + [Missing(origin)], logged := s'.logged + [OriginMissing(origin)]);
      return NoPaths, s';
    }
    s' := s'.(logged := s'.logged + [DestinationChosen(destination)]);
    if IsCancelar(destination) {
      s' := s'.(logged := s'.logged + [DestinationCancelled], out := s'.out + [Cancelled]);
      return NoPaths, s';
    }
    if AbsPath(PathString(s'.cwd), origin) == AbsPath(PathString(s'.cwd), destination) {
      s' := s'.(out := s'.out + [SameFolder], logged := s'.logged + [Identical]);
      return NoPaths, s';
    }
    if destination == "" {
      return Raised, s';
    }
    var made := MakeDirs(s'.fs, Resolve(s'.cwd, destination), now);
    if made.None? {
      return Raised, s';
    }
    s' := s'.(fs := made.value);
    if !IsDir(s'.fs, Resolve(s'.cwd, origin)) {
      return Raised, s';
    }
    s' := s'.(cwd := Resolve(s'.cwd, origin));
    answer := Paths(origin, destination);
  }
}
