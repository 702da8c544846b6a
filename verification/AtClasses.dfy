// What a result is classified as (at_response.c, at_read.c): the table is searched from the
// front, but its first word alone decides, up to the first colon or CR.
module AtClasses {
  import opened RingBuffers
  import opened AtRead

  function WordEnd(c: string): (k: nat)
    ensures k <= |c| && forall j :: 0 <= j < k - 1 ==> c[j] != ':' && c[j] != '\r'
    ensures k < |c| ==> k > 0 && (c[k - 1] == ':' || c[k - 1] == '\r')
  {
    if c == [] then 0
    else if c[0] == ':' || c[0] == '\r' then 1
    else 1 + WordEnd(c[1..])
  }

  // The prompt is a word of its own.
  function Word(c: string): string {
    if StartsWith(c, "> ") then "> " else c[..WordEnd(c)]
  }

  // The reports of standard commands and events.
  function PlusClass(word: string): Res {
    match word
    case "+CMGR:" => RES_CMGR
    case "+CMS ERROR:" => RES_CMS_ERROR
    case "+CMTI:" => RES_CMTI
    case "+CNUM:" => RES_CNUM
    case "+COPS:" => RES_COPS
    case "+CPIN:" => RES_CPIN
    case "+CREG:" => RES_CREG
    case "+CSQ:" => RES_CSQ
    case "+CSSI:" => RES_CSSI
    case "+CSSU:" => RES_CSSU
    case "+CUSD:" => RES_CUSD
    case "+CFUN:" => RES_CFUN_V
    case "+CMGS:" => RES_CMGS
    case "+CPMS:" => RES_CMGS
    case "+CSCA:" => RES_CSCA
    case "+CLCC:" => RES_CLCC
    case "+CCWA:" => RES_CCWA
    case "+CDS:" => RES_CDS
    case _ => RES_UNKNOWN
  }

  // Those of the device's own.
  function CaretClass(word: string): Res {
    match word
    case "^BOOT:" => RES_BOOT
    case "^CEND:" => RES_CEND
    case "^CONF:" => RES_CONF
    case "^CONN:" => RES_CONN
    case "^SPN:" => RES_SPN
    case "^SYSINFO:" => RES_SYSINFO
    case "^MODE:" => RES_MODE
    case "^ORIG:" => RES_ORIG
    case "^RSSI:" => RES_RSSI
    case "^DSFLOWRPT:" => RES_DSFLOWRPT
    case "^SMMEMFULL:" => RES_SMMEMFULL
    case "^SRVST:" => RES_SRVST
    case "^SIMST:" => RES_SIMST
    case "^ICCID:" => RES_ICCID
    case "^SN:" => RES_SN
    case _ => RES_UNKNOWN
  }

  // Those that are words alone.
  function BareClass(word: string): Res {
    match word
    case "OK\r" => RES_OK
    case "ERROR\r" => RES_ERROR
    case "COMMAND NOT SUPPORT\r" => RES_ERROR
    case "RING\r" => RES_RING
    case "BUSY\r" => RES_BUSY
    case "NO CARRIER\r" => RES_NO_CARRIER
    case "NO DIALTONE\r" => RES_NO_DIALTONE
    case "> " => RES_SMS_PROMPT
    case "ERROR+CNUM:" => RES_CNUM
    case _ => RES_UNKNOWN
  }

  function ClassOf(word: string): Res {
    if word == "" then RES_UNKNOWN
    else if word[0] == '+' then PlusClass(word)
    else if word[0] == '^' then CaretClass(word)
    else BareClass(word)
  }

  // One word: nothing but its end is a colon or a CR, or it is the prompt.
  predicate IsWord(id: string) {
    id == "> " ||
    (&& id != "" && id[0] != '>' && (id[|id| - 1] == ':' || id[|id| - 1] == '\r')
     && forall j :: 0 <= j < |id| - 1 ==> id[j] != ':' && id[j] != '\r')
  }

  lemma WordEndsAt(c: string, i: nat)
    requires i < |c| && (c[i] == ':' || c[i] == '\r') && forall j :: 0 <= j < i ==> c[j] != ':' && c[j] != '\r'
    ensures WordEnd(c) == i + 1
  {
    var k := WordEnd(c);
  }

  lemma StartsIsPrefix(c: string, id: string)
    ensures StartsWith(c, id) <==> id != "" && id <= c
  {
    if StartsWith(c, id) {
      assert forall j :: 0 <= j < |id| ==> c[0 + j] == id[j];
    }
    if id <= c {
      assert forall j :: 0 <= j < |id| ==> c[0 + j] == id[j];
    }
  }

  lemma StartsWithWord(c: string, id: string)
    requires IsWord(id)
    ensures StartsWith(c, id) <==> Word(c) == id
  {
    StartsIsPrefix(c, id);
    StartsIsPrefix(c, "> ");
    hide StartsWith;
    if "> " <= c {
      assert c[0] == "> "[0];
    } else {
      var k := WordEnd(c);
      assert c[..k] <= c;
      if id <= c && id != "> " {
        WordEndsAt(c, |id| - 1);
        assert c[..|id|] == id;
      }
    }
  }

  ghost predicate AllWords(table: seq<Response>) {
    forall k :: 0 <= k < |table| ==> IsWord(table[k].id)
  }

  ghost predicate AllClassed(table: seq<Response>) {
    forall k :: 0 <= k < |table| ==> ClassOf(table[k].id) == table[k].res
  }

  predicate Absent(table: seq<Response>, word: string) {
    forall k :: 0 <= k < |table| ==> table[k].id != word
  }

  lemma {:induction false} LookupIsWord(table: seq<Response>, c: string)
    requires AllWords(table) && AllClassed(table)
    ensures Absent(table, Word(c)) ==> Lookup(table, c) == RES_UNKNOWN
    ensures !Absent(table, Word(c)) ==> Lookup(table, c) == ClassOf(Word(c))
  {
    hide StartsWith, IsWord, ClassOf, Word;
    if table != [] {
      StartsWithWord(c, table[0].id);
      LookupIsWord(table[1..], c);
      if table[0].id != Word(c) {
        assert Absent(table, Word(c)) <==> Absent(table[1..], Word(c)) by {
          if Absent(table[1..], Word(c)) {
            assert forall k :: 0 < k < |table| ==> table[k] == table[1..][k - 1];
          }
        }
      }
    }
  }

  lemma Words0()
    ensures AllWords(RESPONSES_0)
  {
  }

  lemma Values0()
    ensures ClassOf("^BOOT:") == RES_BOOT && ClassOf("BUSY\r") == RES_BUSY && ClassOf("^CEND:") == RES_CEND
    ensures ClassOf("+CMGR:") == RES_CMGR && ClassOf("+CMS ERROR:") == RES_CMS_ERROR && ClassOf("+CMTI:") == RES_CMTI
  {
  }

  lemma Classes0()
    ensures AllClassed(RESPONSES_0)
  {
    hide ClassOf;
    Values0();
  }

  lemma Words1()
    ensures AllWords(RESPONSES_1)
  {
  }

  lemma Values1()
    ensures ClassOf("+CNUM:") == RES_CNUM && ClassOf("^CONF:") == RES_CONF && ClassOf("^CONN:") == RES_CONN
    ensures ClassOf("+COPS:") == RES_COPS && ClassOf("^SPN:") == RES_SPN && ClassOf("^SYSINFO:") == RES_SYSINFO
  {
  }

  lemma Classes1()
    ensures AllClassed(RESPONSES_1)
  {
    hide ClassOf;
    Values1();
  }

  lemma Words2()
    ensures AllWords(RESPONSES_2)
  {
  }

  lemma Values2()
    ensures ClassOf("+CPIN:") == RES_CPIN && ClassOf("+CREG:") == RES_CREG && ClassOf("+CSQ:") == RES_CSQ
    ensures ClassOf("+CSSI:") == RES_CSSI && ClassOf("+CSSU:") == RES_CSSU && ClassOf("+CUSD:") == RES_CUSD
  {
  }

  lemma Classes2()
    ensures AllClassed(RESPONSES_2)
  {
    hide ClassOf;
    Values2();
  }

  lemma Words3()
    ensures AllWords(RESPONSES_3)
  {
  }

  lemma Values3()
    ensures ClassOf("ERROR\r") == RES_ERROR && ClassOf("^MODE:") == RES_MODE
    ensures ClassOf("NO CARRIER\r") == RES_NO_CARRIER
    ensures ClassOf("NO DIALTONE\r") == RES_NO_DIALTONE && ClassOf("OK\r") == RES_OK && ClassOf("^ORIG:") == RES_ORIG
  {
  }

  lemma Classes3()
    ensures AllClassed(RESPONSES_3)
  {
    hide ClassOf;
    Values3();
  }

  lemma Words4()
    ensures AllWords(RESPONSES_4)
  {
  }

  lemma Values4()
    ensures ClassOf("RING\r") == RES_RING && ClassOf("^RSSI:") == RES_RSSI && ClassOf("^DSFLOWRPT:") == RES_DSFLOWRPT
    ensures ClassOf("^SMMEMFULL:") == RES_SMMEMFULL && ClassOf("> ") == RES_SMS_PROMPT
    ensures ClassOf("^SRVST:") == RES_SRVST
  {
  }

  lemma Classes4()
    ensures AllClassed(RESPONSES_4)
  {
    hide ClassOf;
    Values4();
  }

  lemma Words5()
    ensures AllWords(RESPONSES_5)
  {
  }

  lemma Values5()
    ensures ClassOf("^SIMST:") == RES_SIMST && ClassOf("+CFUN:") == RES_CFUN_V && ClassOf("^ICCID:") == RES_ICCID
    ensures ClassOf("^SN:") == RES_SN && ClassOf("+CMGS:") == RES_CMGS && ClassOf("+CPMS:") == RES_CMGS
  {
  }

  lemma Classes5()
    ensures AllClassed(RESPONSES_5)
  {
    hide ClassOf;
    Values5();
  }

  lemma Words6()
    ensures AllWords(RESPONSES_6)
  {
  }

  lemma Values6()
    ensures ClassOf("+CSCA:") == RES_CSCA && ClassOf("+CLCC:") == RES_CLCC && ClassOf("+CCWA:") == RES_CCWA
    ensures ClassOf("+CDS:") == RES_CDS
  {
  }

  lemma Classes6()
    ensures AllClassed(RESPONSES_6)
  {
    hide ClassOf;
    Values6();
  }

  lemma Words7()
    ensures AllWords(RESPONSES_7)
  {
  }

  lemma Values7()
    ensures ClassOf("ERROR+CNUM:") == RES_CNUM && ClassOf("COMMAND NOT SUPPORT\r") == RES_ERROR
  {
  }

  lemma Classes7()
    ensures AllClassed(RESPONSES_7)
  {
    hide ClassOf;
    Values7();
  }

  lemma NotInRow0(word: string)
    requires Absent(RESPONSES_0, word)
    ensures word != "^BOOT:" && word != "BUSY\r" && word != "^CEND:" && word != "+CMGR:"
    ensures word != "+CMS ERROR:" && word != "+CMTI:"
  {
    assert RESPONSES_0[0].id != word && RESPONSES_0[1].id != word && RESPONSES_0[2].id != word;
    assert RESPONSES_0[3].id != word && RESPONSES_0[4].id != word && RESPONSES_0[5].id != word;
  }

  lemma NotInRow1(word: string)
    requires Absent(RESPONSES_1, word)
    ensures word != "+CNUM:" && word != "^CONF:" && word != "^CONN:" && word != "+COPS:"
    ensures word != "^SPN:" && word != "^SYSINFO:"
  {
    assert RESPONSES_1[0].id != word && RESPONSES_1[1].id != word && RESPONSES_1[2].id != word;
    assert RESPONSES_1[3].id != word && RESPONSES_1[4].id != word && RESPONSES_1[5].id != word;
  }

  lemma NotInRow2(word: string)
    requires Absent(RESPONSES_2, word)
    ensures word != "+CPIN:" && word != "+CREG:" && word != "+CSQ:" && word != "+CSSI:"
    ensures word != "+CSSU:" && word != "+CUSD:"
  {
    assert RESPONSES_2[0].id != word && RESPONSES_2[1].id != word && RESPONSES_2[2].id != word;
    assert RESPONSES_2[3].id != word && RESPONSES_2[4].id != word && RESPONSES_2[5].id != word;
  }

  lemma NotInRow3(word: string)
    requires Absent(RESPONSES_3, word)
    ensures word != "ERROR\r" && word != "^MODE:" && word != "NO CARRIER\r" && word != "NO DIALTONE\r"
    ensures word != "OK\r" && word != "^ORIG:"
  {
    assert RESPONSES_3[0].id != word && RESPONSES_3[1].id != word && RESPONSES_3[2].id != word;
    assert RESPONSES_3[3].id != word && RESPONSES_3[4].id != word && RESPONSES_3[5].id != word;
  }

  lemma NotInRow4(word: string)
    requires Absent(RESPONSES_4, word)
    ensures word != "RING\r" && word != "^RSSI:" && word != "^DSFLOWRPT:" && word != "^SMMEMFULL:"
    ensures word != "> " && word != "^SRVST:"
  {
    assert RESPONSES_4[0].id != word && RESPONSES_4[1].id != word && RESPONSES_4[2].id != word;
    assert RESPONSES_4[3].id != word && RESPONSES_4[4].id != word && RESPONSES_4[5].id != word;
  }

  lemma NotInRow5(word: string)
    requires Absent(RESPONSES_5, word)
    ensures word != "^SIMST:" && word != "+CFUN:" && word != "^ICCID:" && word != "^SN:"
    ensures word != "+CMGS:" && word != "+CPMS:"
  {
    assert RESPONSES_5[0].id != word && RESPONSES_5[1].id != word && RESPONSES_5[2].id != word;
    assert RESPONSES_5[3].id != word && RESPONSES_5[4].id != word && RESPONSES_5[5].id != word;
  }

  lemma NotInRow6(word: string)
    requires Absent(RESPONSES_6, word)
    ensures word != "+CSCA:" && word != "+CLCC:" && word != "+CCWA:" && word != "+CDS:"
  {
    assert RESPONSES_6[0].id != word && RESPONSES_6[1].id != word && RESPONSES_6[2].id != word;
    assert RESPONSES_6[3].id != word;
  }

  lemma NotInRow7(word: string)
    requires Absent(RESPONSES_7, word)
    ensures word != "ERROR+CNUM:" && word != "COMMAND NOT SUPPORT\r"
  {
    assert RESPONSES_7[0].id != word && RESPONSES_7[1].id != word;
  }

  lemma WordsAll()
    ensures AllWords(RESPONSES)
  {
    hide IsWord;
    Words0();
    Words1();
    Words2();
    Words3();
    Words4();
    Words5();
    Words6();
    Words7();
  }

  lemma ClassesAll()
    ensures AllClassed(RESPONSES)
  {
    hide ClassOf;
    Classes0();
    Classes1();
    Classes2();
    Classes3();
    Classes4();
    Classes5();
    Classes6();
    Classes7();
  }

  ghost predicate Nowhere(word: string) {
    && Absent(RESPONSES_0, word) && Absent(RESPONSES_1, word) && Absent(RESPONSES_2, word) && Absent(RESPONSES_3, word)
    && Absent(RESPONSES_4, word) && Absent(RESPONSES_5, word) && Absent(RESPONSES_6, word) && Absent(RESPONSES_7, word)
  }

  lemma NoPlus(word: string)
    requires Nowhere(word)
    ensures PlusClass(word) == RES_UNKNOWN
  {
    NotInRow0(word);
    NotInRow1(word);
    NotInRow2(word);
    NotInRow5(word);
    NotInRow6(word);
    hide Absent, Nowhere;
  }

  lemma NoCaret(word: string)
    requires Nowhere(word)
    ensures CaretClass(word) == RES_UNKNOWN
  {
    NotInRow0(word);
    NotInRow1(word);
    NotInRow3(word);
    NotInRow4(word);
    NotInRow5(word);
    hide Absent, Nowhere;
  }

  lemma NoBare(word: string)
    requires Nowhere(word)
    ensures BareClass(word) == RES_UNKNOWN
  {
    NotInRow0(word);
    NotInRow3(word);
    NotInRow4(word);
    NotInRow7(word);
    hide Absent, Nowhere;
  }

  lemma AbsentJoin(a: seq<Response>, b: seq<Response>, word: string)
    requires Absent(a + b, word)
    ensures Absent(a, word) && Absent(b, word)
  {
    assert forall k :: 0 <= k < |a| ==> (a + b)[k] == a[k];
    assert forall k :: 0 <= k < |b| ==> (a + b)[|a| + k] == b[k];
  }

  lemma NotInTable(word: string)
    requires Absent(RESPONSES, word)
    ensures ClassOf(word) == RES_UNKNOWN
  {
    hide Absent, PlusClass, CaretClass, BareClass;
    var r1 := RESPONSES_0 + RESPONSES_1;
    var r2 := r1 + RESPONSES_2;
    var r3 := r2 + RESPONSES_3;
    var r4 := r3 + RESPONSES_4;
    var r5 := r4 + RESPONSES_5;
    var r6 := r5 + RESPONSES_6;
    AbsentJoin(r6, RESPONSES_7, word);
    AbsentJoin(r5, RESPONSES_6, word);
    AbsentJoin(r4, RESPONSES_5, word);
    AbsentJoin(r3, RESPONSES_4, word);
    AbsentJoin(r2, RESPONSES_3, word);
    AbsentJoin(r1, RESPONSES_2, word);
    AbsentJoin(RESPONSES_0, RESPONSES_1, word);
    NoPlus(word);
    NoCaret(word);
    NoBare(word);
  }

  // The first entry that matches is the one for the first word: the order of the table
  // makes no difference, and nothing behind the word does.
  lemma ClassifiedByWord(c: string)
    ensures Classify(c) == ClassOf(Word(c))
  {
    hide Lookup, ClassOf, Word, Absent, AllWords, AllClassed;
    WordsAll();
    ClassesAll();
    LookupIsWord(RESPONSES, c);
    if Absent(RESPONSES, Word(c)) {
      NotInTable(Word(c));
    }
  }
}
