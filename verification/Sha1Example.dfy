/**
 * The first published value of SHA-1, in section 7.3 of RFC 3174: the digest of "abc", word by word and step by step.
 * It ties the constants, functions and rotations of Sha1Spec to numbers that owe nothing to it.
 */
module Sha1Example {
  import opened Words
  import opened Streaming
  import opened Sha1Spec

  /** "abc", its padding and its length, as words. */
  predicate Abc(m: seq<word>)
    requires |m| == 16
  {
    m[0] == 0x61626380 && m[15] == 0x18 && forall i | 1 <= i < 15 :: m[i] == 0
  }

  lemma Words0(m: seq<word>)
    requires |m| == 16 && Abc(m)
    ensures W(m, 0) == 0x61626380 && W(m, 1) == 0 && W(m, 2) == 0 && W(m, 3) == 0 && W(m, 4) == 0 && W(m, 5) == 0
    ensures W(m, 6) == 0 && W(m, 7) == 0 && W(m, 8) == 0 && W(m, 9) == 0 && W(m, 10) == 0 && W(m, 11) == 0
    ensures W(m, 12) == 0 && W(m, 13) == 0 && W(m, 14) == 0 && W(m, 15) == 0x18
  {
  }

  lemma Words16(m: seq<word>)
    requires |m| == 16 && Abc(m)
    ensures W(m, 16) == 0xC2C4C700 && W(m, 17) == 0x00000000
    ensures W(m, 18) == 0x00000030 && W(m, 19) == 0x85898E01
    ensures W(m, 20) == 0x00000000 && W(m, 21) == 0x00000060
    ensures W(m, 22) == 0x0B131C03 && W(m, 23) == 0x00000030
    ensures W(m, 24) == 0x85898EC1 && W(m, 25) == 0x16263806
    ensures W(m, 26) == 0x00000000 && W(m, 27) == 0x00000180
    ensures W(m, 28) == 0x2C4C700C && W(m, 29) == 0x000000F0
    ensures W(m, 30) == 0x93AFB507 && W(m, 31) == 0x5898E048
  {
    hide W, Abc;
    Words0(m);
    ScheduleWords(m, 16);
    ScheduleWords(m, 17);
    ScheduleWords(m, 18);
    ScheduleWords(m, 19);
    ScheduleWords(m, 20);
    ScheduleWords(m, 21);
    ScheduleWords(m, 22);
    ScheduleWords(m, 23);
    ScheduleWords(m, 24);
    ScheduleWords(m, 25);
    ScheduleWords(m, 26);
    ScheduleWords(m, 27);
    ScheduleWords(m, 28);
    ScheduleWords(m, 29);
    ScheduleWords(m, 30);
    ScheduleWords(m, 31);
  }

  lemma Words32(m: seq<word>)
    requires |m| == 16 && Abc(m)
    ensures W(m, 32) == 0x8E9A9202 && W(m, 33) == 0x00000600
    ensures W(m, 34) == 0xB131C0F0 && W(m, 35) == 0x16263BC6
    ensures W(m, 36) == 0x4EBED41E && W(m, 37) == 0x626380A1
    ensures W(m, 38) == 0x16263806 && W(m, 39) == 0x000018C0
    ensures W(m, 40) == 0xD2E138C4 && W(m, 41) == 0x00000F00
    ensures W(m, 42) == 0x3AFB5079 && W(m, 43) == 0x898E04E5
    ensures W(m, 44) == 0xE2BA3C2B && W(m, 45) == 0x000060C0
    ensures W(m, 46) == 0x053A37CD && W(m, 47) == 0x74458547
  {
    hide W, Abc;
    Words16(m);
    ScheduleWords(m, 32);
    ScheduleWords(m, 33);
    ScheduleWords(m, 34);
    ScheduleWords(m, 35);
    ScheduleWords(m, 36);
    ScheduleWords(m, 37);
    ScheduleWords(m, 38);
    ScheduleWords(m, 39);
    ScheduleWords(m, 40);
    ScheduleWords(m, 41);
    ScheduleWords(m, 42);
    ScheduleWords(m, 43);
    ScheduleWords(m, 44);
    ScheduleWords(m, 45);
    ScheduleWords(m, 46);
    ScheduleWords(m, 47);
  }

  lemma Words48(m: seq<word>)
    requires |m| == 16 && Abc(m)
    ensures W(m, 48) == 0xDA9415ED && W(m, 49) == 0x26380A16
    ensures W(m, 50) == 0x626383A1 && W(m, 51) == 0x4EBF54DE
    ensures W(m, 52) == 0x3835B44B && W(m, 53) == 0x0000F600
    ensures W(m, 54) == 0x1E84C7A3 && W(m, 55) == 0x98E04D98
    ensures W(m, 56) == 0x651D16A0 && W(m, 57) == 0x62658CA1
    ensures W(m, 58) == 0x458544D6 && W(m, 59) == 0x44584CB7
    ensures W(m, 60) == 0x7BA06619 && W(m, 61) == 0x6380AEA2
    ensures W(m, 62) == 0x0AE55269 && W(m, 63) == 0x627B49A1
  {
    hide W, Abc;
    Words32(m);
    ScheduleWords(m, 48);
    ScheduleWords(m, 49);
    ScheduleWords(m, 50);
    ScheduleWords(m, 51);
    ScheduleWords(m, 52);
    ScheduleWords(m, 53);
    ScheduleWords(m, 54);
    ScheduleWords(m, 55);
    ScheduleWords(m, 56);
    ScheduleWords(m, 57);
    ScheduleWords(m, 58);
    ScheduleWords(m, 59);
    ScheduleWords(m, 60);
    ScheduleWords(m, 61);
    ScheduleWords(m, 62);
    ScheduleWords(m, 63);
  }

  lemma Words64(m: seq<word>)
    requires |m| == 16 && Abc(m)
    ensures W(m, 64) == 0x7CD45C9D && W(m, 65) == 0x000F0000
    ensures W(m, 66) == 0xFB50753A && W(m, 67) == 0xEC6765E8
    ensures W(m, 68) == 0xBA3C2BE2 && W(m, 69) == 0x0060C000
    ensures W(m, 70) == 0x3A37CD05 && W(m, 71) == 0x458546F4
    ensures W(m, 72) == 0xB8599DD6 && W(m, 73) == 0x380A1A26
    ensures W(m, 74) == 0x01E02203 && W(m, 75) == 0xE7CC3456
    ensures W(m, 76) == 0xE6E60B69 && W(m, 77) == 0x00F60A00
    ensures W(m, 78) == 0x5795EF4F && W(m, 79) == 0x822E0879
  {
    hide W, Abc;
    Words48(m);
    ScheduleWords(m, 64);
    ScheduleWords(m, 65);
    ScheduleWords(m, 66);
    ScheduleWords(m, 67);
    ScheduleWords(m, 68);
    ScheduleWords(m, 69);
    ScheduleWords(m, 70);
    ScheduleWords(m, 71);
    ScheduleWords(m, 72);
    ScheduleWords(m, 73);
    ScheduleWords(m, 74);
    ScheduleWords(m, 75);
    ScheduleWords(m, 76);
    ScheduleWords(m, 77);
    ScheduleWords(m, 78);
    ScheduleWords(m, 79);
  }

  /** The registers after `t` steps. */
  predicate Reached(m: seq<word>, t: nat, r: Regs) {
    |m| == 16 && t <= 80 && Rounds(INITIAL, m, t) == r
  }

  lemma NextRegs(m: seq<word>, t: nat, r: Regs)
    requires t < 80 && Reached(m, t, r)
    ensures var temp := Temp(RotL(r.a, 5), F(t, r.b, r.c, r.d), r.e, W(m, t), K(t));
            Reached(m, t + 1, Regs(temp, r.a, RotL(r.b, 30), r.c, r.d))
  {
    hide W, F, K, RotL, Temp;
  }

  lemma Rounds0(m: seq<word>)
    requires |m| == 16 && Abc(m) && Reached(m, 0, Regs(0x67452301, 0xEFCDAB89, 0x98BADCFE, 0x10325476, 0xC3D2E1F0))
    ensures Reached(m, 20, Regs(0xFD9E1D7D, 0xDC64901D, 0x20AA99CA, 0xD3A49608, 0xC82F758B))
  {
    hide W, Abc, Reached;
    Words0(m);
    Words16(m);
    NextRegs(m, 0, Regs(0x67452301, 0xEFCDAB89, 0x98BADCFE, 0x10325476, 0xC3D2E1F0));
    NextRegs(m, 1, Regs(0x0116FC33, 0x67452301, 0x7BF36AE2, 0x98BADCFE, 0x10325476));
    NextRegs(m, 2, Regs(0x8990536D, 0x0116FC33, 0x59D148C0, 0x7BF36AE2, 0x98BADCFE));
    NextRegs(m, 3, Regs(0xA1390F08, 0x8990536D, 0xC045BF0C, 0x59D148C0, 0x7BF36AE2));
    NextRegs(m, 4, Regs(0xCDD8E11B, 0xA1390F08, 0x626414DB, 0xC045BF0C, 0x59D148C0));
    NextRegs(m, 5, Regs(0xCFD499DE, 0xCDD8E11B, 0x284E43C2, 0x626414DB, 0xC045BF0C));
    NextRegs(m, 6, Regs(0x3FC7CA40, 0xCFD499DE, 0xF3763846, 0x284E43C2, 0x626414DB));
    NextRegs(m, 7, Regs(0x993E30C1, 0x3FC7CA40, 0xB3F52677, 0xF3763846, 0x284E43C2));
    NextRegs(m, 8, Regs(0x9E8C07D4, 0x993E30C1, 0x0FF1F290, 0xB3F52677, 0xF3763846));
    NextRegs(m, 9, Regs(0x4B6AE328, 0x9E8C07D4, 0x664F8C30, 0x0FF1F290, 0xB3F52677));
    NextRegs(m, 10, Regs(0x8351F929, 0x4B6AE328, 0x27A301F5, 0x664F8C30, 0x0FF1F290));
    NextRegs(m, 11, Regs(0xFBDA9E89, 0x8351F929, 0x12DAB8CA, 0x27A301F5, 0x664F8C30));
    NextRegs(m, 12, Regs(0x63188FE4, 0xFBDA9E89, 0x60D47E4A, 0x12DAB8CA, 0x27A301F5));
    NextRegs(m, 13, Regs(0x4607B664, 0x63188FE4, 0x7EF6A7A2, 0x60D47E4A, 0x12DAB8CA));
    NextRegs(m, 14, Regs(0x9128F695, 0x4607B664, 0x18C623F9, 0x7EF6A7A2, 0x60D47E4A));
    NextRegs(m, 15, Regs(0x196BEE77, 0x9128F695, 0x1181ED99, 0x18C623F9, 0x7EF6A7A2));
    NextRegs(m, 16, Regs(0x20BDD62F, 0x196BEE77, 0x644A3DA5, 0x1181ED99, 0x18C623F9));
    NextRegs(m, 17, Regs(0x4E925823, 0x20BDD62F, 0xC65AFB9D, 0x644A3DA5, 0x1181ED99));
    NextRegs(m, 18, Regs(0x82AA6728, 0x4E925823, 0xC82F758B, 0xC65AFB9D, 0x644A3DA5));
    NextRegs(m, 19, Regs(0xDC64901D, 0x82AA6728, 0xD3A49608, 0xC82F758B, 0xC65AFB9D));
  }

  lemma Rounds20(m: seq<word>)
    requires |m| == 16 && Abc(m) && Reached(m, 20, Regs(0xFD9E1D7D, 0xDC64901D, 0x20AA99CA, 0xD3A49608, 0xC82F758B))
    ensures Reached(m, 40, Regs(0x32DE1CBA, 0x4C986405, 0xF718E5CF, 0x03D447F6, 0xF72EEC32))
  {
    hide W, Abc, Reached;
    Words16(m);
    Words32(m);
    NextRegs(m, 20, Regs(0xFD9E1D7D, 0xDC64901D, 0x20AA99CA, 0xD3A49608, 0xC82F758B));
    NextRegs(m, 21, Regs(0x1A37B0CA, 0xFD9E1D7D, 0x77192407, 0x20AA99CA, 0xD3A49608));
    NextRegs(m, 22, Regs(0x33A23BFC, 0x1A37B0CA, 0x7F67875F, 0x77192407, 0x20AA99CA));
    NextRegs(m, 23, Regs(0x21283486, 0x33A23BFC, 0x868DEC32, 0x7F67875F, 0x77192407));
    NextRegs(m, 24, Regs(0xD541F12D, 0x21283486, 0x0CE88EFF, 0x868DEC32, 0x7F67875F));
    NextRegs(m, 25, Regs(0xC7567DC6, 0xD541F12D, 0x884A0D21, 0x0CE88EFF, 0x868DEC32));
    NextRegs(m, 26, Regs(0x48413BA4, 0xC7567DC6, 0x75507C4B, 0x884A0D21, 0x0CE88EFF));
    NextRegs(m, 27, Regs(0xBE35FBD5, 0x48413BA4, 0xB1D59F71, 0x75507C4B, 0x884A0D21));
    NextRegs(m, 28, Regs(0x4AA84D97, 0xBE35FBD5, 0x12104EE9, 0xB1D59F71, 0x75507C4B));
    NextRegs(m, 29, Regs(0x8370B52E, 0x4AA84D97, 0x6F8D7EF5, 0x12104EE9, 0xB1D59F71));
    NextRegs(m, 30, Regs(0xC5FBAF5D, 0x8370B52E, 0xD2AA1365, 0x6F8D7EF5, 0x12104EE9));
    NextRegs(m, 31, Regs(0x1267B407, 0xC5FBAF5D, 0xA0DC2D4B, 0xD2AA1365, 0x6F8D7EF5));
    NextRegs(m, 32, Regs(0x3B845D33, 0x1267B407, 0x717EEBD7, 0xA0DC2D4B, 0xD2AA1365));
    NextRegs(m, 33, Regs(0x046FAA0A, 0x3B845D33, 0xC499ED01, 0x717EEBD7, 0xA0DC2D4B));
    NextRegs(m, 34, Regs(0x2C0EBC11, 0x046FAA0A, 0xCEE1174C, 0xC499ED01, 0x717EEBD7));
    NextRegs(m, 35, Regs(0x21796AD4, 0x2C0EBC11, 0x811BEA82, 0xCEE1174C, 0xC499ED01));
    NextRegs(m, 36, Regs(0xDCBBB0CB, 0x21796AD4, 0x4B03AF04, 0x811BEA82, 0xCEE1174C));
    NextRegs(m, 37, Regs(0x0F511FD8, 0xDCBBB0CB, 0x085E5AB5, 0x4B03AF04, 0x811BEA82));
    NextRegs(m, 38, Regs(0xDC63973F, 0x0F511FD8, 0xF72EEC32, 0x085E5AB5, 0x4B03AF04));
    NextRegs(m, 39, Regs(0x4C986405, 0xDC63973F, 0x03D447F6, 0xF72EEC32, 0x085E5AB5));
  }

  lemma Rounds40(m: seq<word>)
    requires |m| == 16 && Abc(m) && Reached(m, 40, Regs(0x32DE1CBA, 0x4C986405, 0xF718E5CF, 0x03D447F6, 0xF72EEC32))
    ensures Reached(m, 60, Regs(0x3F52DE5A, 0x09D785FD, 0x3498BFD4, 0xF211824F, 0xD79915AB))
  {
    hide W, Abc, Reached;
    Words32(m);
    Words48(m);
    NextRegs(m, 40, Regs(0x32DE1CBA, 0x4C986405, 0xF718E5CF, 0x03D447F6, 0xF72EEC32));
    NextRegs(m, 41, Regs(0xFC87DEDF, 0x32DE1CBA, 0x53261901, 0xF718E5CF, 0x03D447F6));
    NextRegs(m, 42, Regs(0x970A0D5C, 0xFC87DEDF, 0x8CB7872E, 0x53261901, 0xF718E5CF));
    NextRegs(m, 43, Regs(0x7F193DC5, 0x970A0D5C, 0xFF21F7B7, 0x8CB7872E, 0x53261901));
    NextRegs(m, 44, Regs(0xEE1B1AAF, 0x7F193DC5, 0x25C28357, 0xFF21F7B7, 0x8CB7872E));
    NextRegs(m, 45, Regs(0x40F28E09, 0xEE1B1AAF, 0x5FC64F71, 0x25C28357, 0xFF21F7B7));
    NextRegs(m, 46, Regs(0x1C51E1F2, 0x40F28E09, 0xFB86C6AB, 0x5FC64F71, 0x25C28357));
    NextRegs(m, 47, Regs(0xA01B846C, 0x1C51E1F2, 0x503CA382, 0xFB86C6AB, 0x5FC64F71));
    NextRegs(m, 48, Regs(0xBEAD02CA, 0xA01B846C, 0x8714787C, 0x503CA382, 0xFB86C6AB));
    NextRegs(m, 49, Regs(0xBAF39337, 0xBEAD02CA, 0x2806E11B, 0x8714787C, 0x503CA382));
    NextRegs(m, 50, Regs(0x120731C5, 0xBAF39337, 0xAFAB40B2, 0x2806E11B, 0x8714787C));
    NextRegs(m, 51, Regs(0x641DB2CE, 0x120731C5, 0xEEBCE4CD, 0xAFAB40B2, 0x2806E11B));
    NextRegs(m, 52, Regs(0x3847AD66, 0x641DB2CE, 0x4481CC71, 0xEEBCE4CD, 0xAFAB40B2));
    NextRegs(m, 53, Regs(0xE490436D, 0x3847AD66, 0x99076CB3, 0x4481CC71, 0xEEBCE4CD));
    NextRegs(m, 54, Regs(0x27E9F1D8, 0xE490436D, 0x8E11EB59, 0x99076CB3, 0x4481CC71));
    NextRegs(m, 55, Regs(0x7B71F76D, 0x27E9F1D8, 0x792410DB, 0x8E11EB59, 0x99076CB3));
    NextRegs(m, 56, Regs(0x5E6456AF, 0x7B71F76D, 0x09FA7C76, 0x792410DB, 0x8E11EB59));
    NextRegs(m, 57, Regs(0xC846093F, 0x5E6456AF, 0x5EDC7DDB, 0x09FA7C76, 0x792410DB));
    NextRegs(m, 58, Regs(0xD262FF50, 0xC846093F, 0xD79915AB, 0x5EDC7DDB, 0x09FA7C76));
    NextRegs(m, 59, Regs(0x09D785FD, 0xD262FF50, 0xF211824F, 0xD79915AB, 0x5EDC7DDB));
  }

  lemma Rounds60(m: seq<word>)
    requires |m| == 16 && Abc(m) && Reached(m, 60, Regs(0x3F52DE5A, 0x09D785FD, 0x3498BFD4, 0xF211824F, 0xD79915AB))
    ensures Reached(m, 80, Regs(0x42541B35, 0x5738D5E1, 0x21834873, 0x681E6DF6, 0xD8FDF6AD))
  {
    hide W, Abc, Reached;
    Words48(m);
    Words64(m);
    NextRegs(m, 60, Regs(0x3F52DE5A, 0x09D785FD, 0x3498BFD4, 0xF211824F, 0xD79915AB));
    NextRegs(m, 61, Regs(0xD756C147, 0x3F52DE5A, 0x4275E17F, 0x3498BFD4, 0xF211824F));
    NextRegs(m, 62, Regs(0x548C9CB2, 0xD756C147, 0x8FD4B796, 0x4275E17F, 0x3498BFD4));
    NextRegs(m, 63, Regs(0xB66C020B, 0x548C9CB2, 0xF5D5B051, 0x8FD4B796, 0x4275E17F));
    NextRegs(m, 64, Regs(0x6B61C9E1, 0xB66C020B, 0x9523272C, 0xF5D5B051, 0x8FD4B796));
    NextRegs(m, 65, Regs(0x19DFA7AC, 0x6B61C9E1, 0xED9B0082, 0x9523272C, 0xF5D5B051));
    NextRegs(m, 66, Regs(0x101655F9, 0x19DFA7AC, 0x5AD87278, 0xED9B0082, 0x9523272C));
    NextRegs(m, 67, Regs(0x0C3DF2B4, 0x101655F9, 0x0677E9EB, 0x5AD87278, 0xED9B0082));
    NextRegs(m, 68, Regs(0x78DD4D2B, 0x0C3DF2B4, 0x4405957E, 0x0677E9EB, 0x5AD87278));
    NextRegs(m, 69, Regs(0x497093C0, 0x78DD4D2B, 0x030F7CAD, 0x4405957E, 0x0677E9EB));
    NextRegs(m, 70, Regs(0x3F2588C2, 0x497093C0, 0xDE37534A, 0x030F7CAD, 0x4405957E));
    NextRegs(m, 71, Regs(0xC199F8C7, 0x3F2588C2, 0x125C24F0, 0xDE37534A, 0x030F7CAD));
    NextRegs(m, 72, Regs(0x39859DE7, 0xC199F8C7, 0x8FC96230, 0x125C24F0, 0xDE37534A));
    NextRegs(m, 73, Regs(0xEDB42DE4, 0x39859DE7, 0xF0667E31, 0x8FC96230, 0x125C24F0));
    NextRegs(m, 74, Regs(0x11793F6F, 0xEDB42DE4, 0xCE616779, 0xF0667E31, 0x8FC96230));
    NextRegs(m, 75, Regs(0x5EE76897, 0x11793F6F, 0x3B6D0B79, 0xCE616779, 0xF0667E31));
    NextRegs(m, 76, Regs(0x63F7DAB7, 0x5EE76897, 0xC45E4FDB, 0x3B6D0B79, 0xCE616779));
    NextRegs(m, 77, Regs(0xA079B7D9, 0x63F7DAB7, 0xD7B9DA25, 0xC45E4FDB, 0x3B6D0B79));
    NextRegs(m, 78, Regs(0x860D21CC, 0xA079B7D9, 0xD8FDF6AD, 0xD7B9DA25, 0xC45E4FDB));
    NextRegs(m, 79, Regs(0x5738D5E1, 0x860D21CC, 0x681E6DF6, 0xD8FDF6AD, 0xD7B9DA25));
  }

  lemma AllRounds(m: seq<word>)
    requires |m| == 16 && Abc(m)
    ensures Rounds(INITIAL, m, 80) == Regs(0x42541B35, 0x5738D5E1, 0x21834873, 0x681E6DF6, 0xD8FDF6AD)
  {
    assert Reached(m, 0, INITIAL);
    hide W, Abc, Rounds;
    Rounds0(m);
    Rounds20(m);
    Rounds40(m);
    Rounds60(m);
  }

  lemma Sums()
    ensures Add(INITIAL, Regs(0x42541B35, 0x5738D5E1, 0x21834873, 0x681E6DF6, 0xD8FDF6AD))
         == Regs(0xA9993E36, 0x4706816A, 0xBA3E2571, 0x7850C26C, 0x9CD0D89D)
  {
  }

  lemma Bytes()
    ensures DigestBytes(Regs(0xA9993E36, 0x4706816A, 0xBA3E2571, 0x7850C26C, 0x9CD0D89D)) ==
      [0xA9, 0x99, 0x3E, 0x36, 0x47, 0x06, 0x81, 0x6A, 0xBA, 0x3E,
       0x25, 0x71, 0x78, 0x50, 0xC2, 0x6C, 0x9C, 0xD0, 0xD8, 0x9D]
  {
  }

  /** The digest of "abc" is the published one. */
  lemma DigestOfAbc()
    ensures Digest([0x61, 0x62, 0x63]) ==
      [0xA9, 0x99, 0x3E, 0x36, 0x47, 0x06, 0x81, 0x6A, 0xBA, 0x3E,
       0x25, 0x71, 0x78, 0x50, 0xC2, 0x6C, 0x9C, 0xD0, 0xD8, 0x9D]
  {
    hide Rounds, Add, DigestBytes, BlockWords, Padded, LengthBytes;
    var padded := Padded([0x61, 0x62, 0x63], LengthBytes(3));
    OneBlock();
    BlockIsAbc(padded);
    AllRounds(BlockWords(padded));
    Sums();
    Bytes();
    FoldBlock(Compress, INITIAL, [], padded);
    assert [] + padded == padded;
  }

  lemma OneBlock()
    ensures var padded := Padded([0x61, 0x62, 0x63], LengthBytes(3));
            && |padded| == 64 && padded[..4] == [0x61, 0x62, 0x63, 0x80] && padded[63] == 24
            && forall i | 4 <= i < 63 :: padded[i] == 0
  {
    assert ZeroCount(3) == 52;
    LengthOfAbc();
    hide LengthBytes;
  }

  lemma LengthOfAbc()
    ensures LengthBytes(3)[7] == 24 && forall i | 0 <= i < 7 :: LengthBytes(3)[i] == 0
  {
    hide BigEndianDigit;
    forall i: nat | i < 8
      ensures BigEndianDigit(24, i) == if i == 7 then 24 else 0
    {
      Digit(i);
    }
  }

  lemma Digit(i: nat)
    requires i < 8
    ensures BigEndianDigit(24, i) == if i == 7 then 24 else 0
  {
    assert (24 / Power256(7 - i)) % 256 == if i == 7 then 24 else 0;
  }

  lemma BlockIsAbc(block: Block)
    requires block[..4] == [0x61, 0x62, 0x63, 0x80] && block[63] == 24 && forall i | 4 <= i < 63 :: block[i] == 0
    ensures Abc(BlockWords(block))
  {
    hide BigEndian;
    BigEndians();
    assert forall i | 0 <= i < 4 :: block[i] == block[..4][i];
  }

  lemma BigEndians()
    ensures BigEndian(0x61, 0x62, 0x63, 0x80) == 0x61626380
    ensures BigEndian(0, 0, 0, 24) == 0x18 && BigEndian(0, 0, 0, 0) == 0
  {
  }
}
