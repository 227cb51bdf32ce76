/** The token kinds, numbered as the lexer's table of automata is ordered, and the two markers around a file. */
module Tokens {

  const NAME: nat := 0
  const NMBR: nat := 1
  const STRL: nat := 2
  const WSPC: nat := 3
  const LCOM: nat := 4
  const BCOM: nat := 5
  const LPAR: nat := 6
  const RPAR: nat := 7
  const LBRA: nat := 8
  const RBRA: nat := 9
  const LBRC: nat := 10
  const RBRC: nat := 11
  const COND: nat := 12
  const ELIF: nat := 13
  const ELSE: nat := 14
  const DOWH: nat := 15
  const WHIL: nat := 16
  const RETN: nat := 17
  const USEU: nat := 18
  const TYPE: nat := 19
  const ASSN: nat := 20
  const ASPL: nat := 21
  const ASMI: nat := 22
  const ASMU: nat := 23
  const ASDI: nat := 24
  const ASMO: nat := 25
  const ASLS: nat := 26
  const ASRS: nat := 27
  const ASAN: nat := 28
  const ASXO: nat := 29
  const ASOR: nat := 30
  const COLN: nat := 31
  const SCOP: nat := 32
  const ATSI: nat := 33
  const MEMB: nat := 34
  const AROW: nat := 35
  const EQUL: nat := 36
  const NEQL: nat := 37
  const LTHN: nat := 38
  const GTHN: nat := 39
  const LTEQ: nat := 40
  const GTEQ: nat := 41
  const CONJ: nat := 42
  const DISJ: nat := 43
  const PLUS: nat := 44
  const MINS: nat := 45
  const MULT: nat := 46
  const DIVI: nat := 47
  const MODU: nat := 48
  const LSHF: nat := 49
  const RSHF: nat := 50
  const AMPS: nat := 51
  const CARE: nat := 52
  const PIPE: nat := 53
  const COMA: nat := 54
  const CAST: nat := 55
  const QUES: nat := 56
  const EXCL: nat := 57
  const TILD: nat := 58
  const INCR: nat := 59
  const DECR: nat := 60
  const SZOF: nat := 61
  const ALOF: nat := 62
  const WAIT: nat := 63
  const WFOR: nat := 64
  const WUNT: nat := 65
  const WNOB: nat := 66
  const WMSE: nat := 67
  const WSEC: nat := 68
  const NOIN: nat := 69
  const SCOL: nat := 70
  const CONS: nat := 71
  const EXPO: nat := 72
  const STAT: nat := 73
  const COUNT: nat := 74
  const FBEG: nat := 75
  const FEND: nat := 76

  /** A token: its kind and the stretch [beg, end) of the input it covers. */
  datatype Token = Token(tk: nat, beg: nat, end: nat)

  /** Whitespace and comments, which the parser passes over. */
  predicate Skipped(t: Token) {
    t.tk == WSPC || t.tk == LCOM || t.tk == BCOM
  }

  predicate IsAssignment(tk: nat) {
    ASSN <= tk <= ASOR
  }
}
