/** The example of FIPS PUB 180-1, Appendix A: what the functions of Sha1Spec compute for the message "abc". */
module Sha1Answer {
  import opened Sha1Spec

  const ABC: seq<Octet> := [0x61, 0x62, 0x63]

  /** The message padded to one block. */
  const BLOCK: seq<Octet> := ABC + [0x80] + Zeros(52) + [0, 0, 0, 0, 0, 0, 0, 24]

  lemma AbcLength()
    ensures LengthBytes(0, 24) == [0, 0, 0, 0, 0, 0, 0, 24]
  {
    assert WordBytes(0) == [0, 0, 0, 0] && WordBytes(24) == [0, 0, 0, 24];
  }

  lemma AbcIsOneBlock()
    ensures Padded(ABC) == BLOCK && |BLOCK| == 64
  {
    AbcLength();
    assert 8 * |ABC| == 24 && (55 - |ABC|) % 64 == 52;
  }

  // ---- the words of the block

  lemma Words0()
    ensures W(BLOCK, 0) == 0x61626380 && W(BLOCK, 1) == 0x00000000 && W(BLOCK, 2) == 0x00000000
    ensures W(BLOCK, 3) == 0x00000000 && W(BLOCK, 4) == 0x00000000 && W(BLOCK, 5) == 0x00000000
    ensures W(BLOCK, 6) == 0x00000000 && W(BLOCK, 7) == 0x00000000 && W(BLOCK, 8) == 0x00000000
    ensures W(BLOCK, 9) == 0x00000000 && W(BLOCK, 10) == 0x00000000 && W(BLOCK, 11) == 0x00000000
    ensures W(BLOCK, 12) == 0x00000000 && W(BLOCK, 13) == 0x00000000 && W(BLOCK, 14) == 0x00000000
    ensures W(BLOCK, 15) == 0x00000018
  {
  }

  lemma Words16()
    ensures W(BLOCK, 16) == 0xC2C4C700 && W(BLOCK, 17) == 0x00000000 && W(BLOCK, 18) == 0x00000030
    ensures W(BLOCK, 19) == 0x85898E01 && W(BLOCK, 20) == 0x00000000 && W(BLOCK, 21) == 0x00000060
    ensures W(BLOCK, 22) == 0x0B131C03 && W(BLOCK, 23) == 0x00000030 && W(BLOCK, 24) == 0x85898EC1
    ensures W(BLOCK, 25) == 0x16263806 && W(BLOCK, 26) == 0x00000000 && W(BLOCK, 27) == 0x00000180
    ensures W(BLOCK, 28) == 0x2C4C700C && W(BLOCK, 29) == 0x000000F0 && W(BLOCK, 30) == 0x93AFB507
    ensures W(BLOCK, 31) == 0x5898E048
  {
    Words0();
  }

  lemma Words32()
    ensures W(BLOCK, 32) == 0x8E9A9202 && W(BLOCK, 33) == 0x00000600 && W(BLOCK, 34) == 0xB131C0F0
    ensures W(BLOCK, 35) == 0x16263BC6 && W(BLOCK, 36) == 0x4EBED41E && W(BLOCK, 37) == 0x626380A1
    ensures W(BLOCK, 38) == 0x16263806 && W(BLOCK, 39) == 0x000018C0 && W(BLOCK, 40) == 0xD2E138C4
    ensures W(BLOCK, 41) == 0x00000F00 && W(BLOCK, 42) == 0x3AFB5079 && W(BLOCK, 43) == 0x898E04E5
    ensures W(BLOCK, 44) == 0xE2BA3C2B && W(BLOCK, 45) == 0x000060C0 && W(BLOCK, 46) == 0x053A37CD
    ensures W(BLOCK, 47) == 0x74458547
  {
    Words16();
  }

  lemma Words48()
    ensures W(BLOCK, 48) == 0xDA9415ED && W(BLOCK, 49) == 0x26380A16 && W(BLOCK, 50) == 0x626383A1
    ensures W(BLOCK, 51) == 0x4EBF54DE && W(BLOCK, 52) == 0x3835B44B && W(BLOCK, 53) == 0x0000F600
    ensures W(BLOCK, 54) == 0x1E84C7A3 && W(BLOCK, 55) == 0x98E04D98 && W(BLOCK, 56) == 0x651D16A0
    ensures W(BLOCK, 57) == 0x62658CA1 && W(BLOCK, 58) == 0x458544D6 && W(BLOCK, 59) == 0x44584CB7
    ensures W(BLOCK, 60) == 0x7BA06619 && W(BLOCK, 61) == 0x6380AEA2 && W(BLOCK, 62) == 0x0AE55269
    ensures W(BLOCK, 63) == 0x627B49A1
  {
    Words32();
  }

  lemma Words64()
    ensures W(BLOCK, 64) == 0x7CD45C9D && W(BLOCK, 65) == 0x000F0000 && W(BLOCK, 66) == 0xFB50753A
    ensures W(BLOCK, 67) == 0xEC6765E8 && W(BLOCK, 68) == 0xBA3C2BE2 && W(BLOCK, 69) == 0x0060C000
    ensures W(BLOCK, 70) == 0x3A37CD05 && W(BLOCK, 71) == 0x458546F4 && W(BLOCK, 72) == 0xB8599DD6
    ensures W(BLOCK, 73) == 0x380A1A26 && W(BLOCK, 74) == 0x01E02203 && W(BLOCK, 75) == 0xE7CC3456
    ensures W(BLOCK, 76) == 0xE6E60B69 && W(BLOCK, 77) == 0x00F60A00 && W(BLOCK, 78) == 0x5795EF4F
    ensures W(BLOCK, 79) == 0x822E0879
  {
    Words48();
  }

  // ---- the rounds

  lemma Rounds10()
    ensures Rounds(H0, BLOCK, 10) == Digest(0x8351F929, 0x4B6AE328, 0x27A301F5, 0x664F8C30, 0x0FF1F290)
  {
    Words0();
    assert Rounds(H0, BLOCK, 1) == Digest(0x0116FC33, 0x67452301, 0x7BF36AE2, 0x98BADCFE, 0x10325476);
    assert Rounds(H0, BLOCK, 2) == Digest(0x8990536D, 0x0116FC33, 0x59D148C0, 0x7BF36AE2, 0x98BADCFE);
    assert Rounds(H0, BLOCK, 3) == Digest(0xA1390F08, 0x8990536D, 0xC045BF0C, 0x59D148C0, 0x7BF36AE2);
    assert Rounds(H0, BLOCK, 4) == Digest(0xCDD8E11B, 0xA1390F08, 0x626414DB, 0xC045BF0C, 0x59D148C0);
    assert Rounds(H0, BLOCK, 5) == Digest(0xCFD499DE, 0xCDD8E11B, 0x284E43C2, 0x626414DB, 0xC045BF0C);
    assert Rounds(H0, BLOCK, 6) == Digest(0x3FC7CA40, 0xCFD499DE, 0xF3763846, 0x284E43C2, 0x626414DB);
    assert Rounds(H0, BLOCK, 7) == Digest(0x993E30C1, 0x3FC7CA40, 0xB3F52677, 0xF3763846, 0x284E43C2);
    assert Rounds(H0, BLOCK, 8) == Digest(0x9E8C07D4, 0x993E30C1, 0x0FF1F290, 0xB3F52677, 0xF3763846);
    assert Rounds(H0, BLOCK, 9) == Digest(0x4B6AE328, 0x9E8C07D4, 0x664F8C30, 0x0FF1F290, 0xB3F52677);
  }

  lemma Rounds20()
    ensures Rounds(H0, BLOCK, 20) == Digest(0xFD9E1D7D, 0xDC64901D, 0x20AA99CA, 0xD3A49608, 0xC82F758B)
  {
    Rounds10();
    Words0();
    Words16();
    assert Rounds(H0, BLOCK, 11) == Digest(0xFBDA9E89, 0x8351F929, 0x12DAB8CA, 0x27A301F5, 0x664F8C30);
    assert Rounds(H0, BLOCK, 12) == Digest(0x63188FE4, 0xFBDA9E89, 0x60D47E4A, 0x12DAB8CA, 0x27A301F5);
    assert Rounds(H0, BLOCK, 13) == Digest(0x4607B664, 0x63188FE4, 0x7EF6A7A2, 0x60D47E4A, 0x12DAB8CA);
    assert Rounds(H0, BLOCK, 14) == Digest(0x9128F695, 0x4607B664, 0x18C623F9, 0x7EF6A7A2, 0x60D47E4A);
    assert Rounds(H0, BLOCK, 15) == Digest(0x196BEE77, 0x9128F695, 0x1181ED99, 0x18C623F9, 0x7EF6A7A2);
    assert Rounds(H0, BLOCK, 16) == Digest(0x20BDD62F, 0x196BEE77, 0x644A3DA5, 0x1181ED99, 0x18C623F9);
    assert Rounds(H0, BLOCK, 17) == Digest(0x4E925823, 0x20BDD62F, 0xC65AFB9D, 0x644A3DA5, 0x1181ED99);
    assert Rounds(H0, BLOCK, 18) == Digest(0x82AA6728, 0x4E925823, 0xC82F758B, 0xC65AFB9D, 0x644A3DA5);
    assert Rounds(H0, BLOCK, 19) == Digest(0xDC64901D, 0x82AA6728, 0xD3A49608, 0xC82F758B, 0xC65AFB9D);
  }

  lemma Rounds30()
    ensures Rounds(H0, BLOCK, 30) == Digest(0xC5FBAF5D, 0x8370B52E, 0xD2AA1365, 0x6F8D7EF5, 0x12104EE9)
  {
    Rounds20();
    Words16();
    assert Rounds(H0, BLOCK, 21) == Digest(0x1A37B0CA, 0xFD9E1D7D, 0x77192407, 0x20AA99CA, 0xD3A49608);
    assert Rounds(H0, BLOCK, 22) == Digest(0x33A23BFC, 0x1A37B0CA, 0x7F67875F, 0x77192407, 0x20AA99CA);
    assert Rounds(H0, BLOCK, 23) == Digest(0x21283486, 0x33A23BFC, 0x868DEC32, 0x7F67875F, 0x77192407);
    assert Rounds(H0, BLOCK, 24) == Digest(0xD541F12D, 0x21283486, 0x0CE88EFF, 0x868DEC32, 0x7F67875F);
    assert Rounds(H0, BLOCK, 25) == Digest(0xC7567DC6, 0xD541F12D, 0x884A0D21, 0x0CE88EFF, 0x868DEC32);
    assert Rounds(H0, BLOCK, 26) == Digest(0x48413BA4, 0xC7567DC6, 0x75507C4B, 0x884A0D21, 0x0CE88EFF);
    assert Rounds(H0, BLOCK, 27) == Digest(0xBE35FBD5, 0x48413BA4, 0xB1D59F71, 0x75507C4B, 0x884A0D21);
    assert Rounds(H0, BLOCK, 28) == Digest(0x4AA84D97, 0xBE35FBD5, 0x12104EE9, 0xB1D59F71, 0x75507C4B);
    assert Rounds(H0, BLOCK, 29) == Digest(0x8370B52E, 0x4AA84D97, 0x6F8D7EF5, 0x12104EE9, 0xB1D59F71);
  }

  lemma Rounds40()
    ensures Rounds(H0, BLOCK, 40) == Digest(0x32DE1CBA, 0x4C986405, 0xF718E5CF, 0x03D447F6, 0xF72EEC32)
  {
    Rounds30();
    Words16();
    Words32();
    assert Rounds(H0, BLOCK, 31) == Digest(0x1267B407, 0xC5FBAF5D, 0xA0DC2D4B, 0xD2AA1365, 0x6F8D7EF5);
    assert Rounds(H0, BLOCK, 32) == Digest(0x3B845D33, 0x1267B407, 0x717EEBD7, 0xA0DC2D4B, 0xD2AA1365);
    assert Rounds(H0, BLOCK, 33) == Digest(0x046FAA0A, 0x3B845D33, 0xC499ED01, 0x717EEBD7, 0xA0DC2D4B);
    assert Rounds(H0, BLOCK, 34) == Digest(0x2C0EBC11, 0x046FAA0A, 0xCEE1174C, 0xC499ED01, 0x717EEBD7);
    assert Rounds(H0, BLOCK, 35) == Digest(0x21796AD4, 0x2C0EBC11, 0x811BEA82, 0xCEE1174C, 0xC499ED01);
    assert Rounds(H0, BLOCK, 36) == Digest(0xDCBBB0CB, 0x21796AD4, 0x4B03AF04, 0x811BEA82, 0xCEE1174C);
    assert Rounds(H0, BLOCK, 37) == Digest(0x0F511FD8, 0xDCBBB0CB, 0x085E5AB5, 0x4B03AF04, 0x811BEA82);
    assert Rounds(H0, BLOCK, 38) == Digest(0xDC63973F, 0x0F511FD8, 0xF72EEC32, 0x085E5AB5, 0x4B03AF04);
    assert Rounds(H0, BLOCK, 39) == Digest(0x4C986405, 0xDC63973F, 0x03D447F6, 0xF72EEC32, 0x085E5AB5);
  }

  lemma Rounds50()
    ensures Rounds(H0, BLOCK, 50) == Digest(0x120731C5, 0xBAF39337, 0xAFAB40B2, 0x2806E11B, 0x8714787C)
  {
    Rounds40();
    Words32();
    Words48();
    assert Rounds(H0, BLOCK, 41) == Digest(0xFC87DEDF, 0x32DE1CBA, 0x53261901, 0xF718E5CF, 0x03D447F6);
    assert Rounds(H0, BLOCK, 42) == Digest(0x970A0D5C, 0xFC87DEDF, 0x8CB7872E, 0x53261901, 0xF718E5CF);
    assert Rounds(H0, BLOCK, 43) == Digest(0x7F193DC5, 0x970A0D5C, 0xFF21F7B7, 0x8CB7872E, 0x53261901);
    assert Rounds(H0, BLOCK, 44) == Digest(0xEE1B1AAF, 0x7F193DC5, 0x25C28357, 0xFF21F7B7, 0x8CB7872E);
    assert Rounds(H0, BLOCK, 45) == Digest(0x40F28E09, 0xEE1B1AAF, 0x5FC64F71, 0x25C28357, 0xFF21F7B7);
    assert Rounds(H0, BLOCK, 46) == Digest(0x1C51E1F2, 0x40F28E09, 0xFB86C6AB, 0x5FC64F71, 0x25C28357);
    assert Rounds(H0, BLOCK, 47) == Digest(0xA01B846C, 0x1C51E1F2, 0x503CA382, 0xFB86C6AB, 0x5FC64F71);
    assert Rounds(H0, BLOCK, 48) == Digest(0xBEAD02CA, 0xA01B846C, 0x8714787C, 0x503CA382, 0xFB86C6AB);
    assert Rounds(H0, BLOCK, 49) == Digest(0xBAF39337, 0xBEAD02CA, 0x2806E11B, 0x8714787C, 0x503CA382);
  }

  lemma Rounds60()
    ensures Rounds(H0, BLOCK, 60) == Digest(0x3F52DE5A, 0x09D785FD, 0x3498BFD4, 0xF211824F, 0xD79915AB)
  {
    Rounds50();
    Words48();
    assert Rounds(H0, BLOCK, 51) == Digest(0x641DB2CE, 0x120731C5, 0xEEBCE4CD, 0xAFAB40B2, 0x2806E11B);
    assert Rounds(H0, BLOCK, 52) == Digest(0x3847AD66, 0x641DB2CE, 0x4481CC71, 0xEEBCE4CD, 0xAFAB40B2);
    assert Rounds(H0, BLOCK, 53) == Digest(0xE490436D, 0x3847AD66, 0x99076CB3, 0x4481CC71, 0xEEBCE4CD);
    assert Rounds(H0, BLOCK, 54) == Digest(0x27E9F1D8, 0xE490436D, 0x8E11EB59, 0x99076CB3, 0x4481CC71);
    assert Rounds(H0, BLOCK, 55) == Digest(0x7B71F76D, 0x27E9F1D8, 0x792410DB, 0x8E11EB59, 0x99076CB3);
    assert Rounds(H0, BLOCK, 56) == Digest(0x5E6456AF, 0x7B71F76D, 0x09FA7C76, 0x792410DB, 0x8E11EB59);
    assert Rounds(H0, BLOCK, 57) == Digest(0xC846093F, 0x5E6456AF, 0x5EDC7DDB, 0x09FA7C76, 0x792410DB);
    assert Rounds(H0, BLOCK, 58) == Digest(0xD262FF50, 0xC846093F, 0xD79915AB, 0x5EDC7DDB, 0x09FA7C76);
    assert Rounds(H0, BLOCK, 59) == Digest(0x09D785FD, 0xD262FF50, 0xF211824F, 0xD79915AB, 0x5EDC7DDB);
  }

  lemma Rounds70()
    ensures Rounds(H0, BLOCK, 70) == Digest(0x3F2588C2, 0x497093C0, 0xDE37534A, 0x030F7CAD, 0x4405957E)
  {
    Rounds60();
    Words48();
    Words64();
    assert Rounds(H0, BLOCK, 61) == Digest(0xD756C147, 0x3F52DE5A, 0x4275E17F, 0x3498BFD4, 0xF211824F);
    assert Rounds(H0, BLOCK, 62) == Digest(0x548C9CB2, 0xD756C147, 0x8FD4B796, 0x4275E17F, 0x3498BFD4);
    assert Rounds(H0, BLOCK, 63) == Digest(0xB66C020B, 0x548C9CB2, 0xF5D5B051, 0x8FD4B796, 0x4275E17F);
    assert Rounds(H0, BLOCK, 64) == Digest(0x6B61C9E1, 0xB66C020B, 0x9523272C, 0xF5D5B051, 0x8FD4B796);
    assert Rounds(H0, BLOCK, 65) == Digest(0x19DFA7AC, 0x6B61C9E1, 0xED9B0082, 0x9523272C, 0xF5D5B051);
    assert Rounds(H0, BLOCK, 66) == Digest(0x101655F9, 0x19DFA7AC, 0x5AD87278, 0xED9B0082, 0x9523272C);
    assert Rounds(H0, BLOCK, 67) == Digest(0x0C3DF2B4, 0x101655F9, 0x0677E9EB, 0x5AD87278, 0xED9B0082);
    assert Rounds(H0, BLOCK, 68) == Digest(0x78DD4D2B, 0x0C3DF2B4, 0x4405957E, 0x0677E9EB, 0x5AD87278);
    assert Rounds(H0, BLOCK, 69) == Digest(0x497093C0, 0x78DD4D2B, 0x030F7CAD, 0x4405957E, 0x0677E9EB);
  }

  lemma Rounds80()
    ensures Rounds(H0, BLOCK, 80) == Digest(0x42541B35, 0x5738D5E1, 0x21834873, 0x681E6DF6, 0xD8FDF6AD)
  {
    Rounds70();
    Words64();
    assert Rounds(H0, BLOCK, 71) == Digest(0xC199F8C7, 0x3F2588C2, 0x125C24F0, 0xDE37534A, 0x030F7CAD);
    assert Rounds(H0, BLOCK, 72) == Digest(0x39859DE7, 0xC199F8C7, 0x8FC96230, 0x125C24F0, 0xDE37534A);
    assert Rounds(H0, BLOCK, 73) == Digest(0xEDB42DE4, 0x39859DE7, 0xF0667E31, 0x8FC96230, 0x125C24F0);
    assert Rounds(H0, BLOCK, 74) == Digest(0x11793F6F, 0xEDB42DE4, 0xCE616779, 0xF0667E31, 0x8FC96230);
    assert Rounds(H0, BLOCK, 75) == Digest(0x5EE76897, 0x11793F6F, 0x3B6D0B79, 0xCE616779, 0xF0667E31);
    assert Rounds(H0, BLOCK, 76) == Digest(0x63F7DAB7, 0x5EE76897, 0xC45E4FDB, 0x3B6D0B79, 0xCE616779);
    assert Rounds(H0, BLOCK, 77) == Digest(0xA079B7D9, 0x63F7DAB7, 0xD7B9DA25, 0xC45E4FDB, 0x3B6D0B79);
    assert Rounds(H0, BLOCK, 78) == Digest(0x860D21CC, 0xA079B7D9, 0xD8FDF6AD, 0xD7B9DA25, 0xC45E4FDB);
    assert Rounds(H0, BLOCK, 79) == Digest(0x5738D5E1, 0x860D21CC, 0x681E6DF6, 0xD8FDF6AD, 0xD7B9DA25);
  }

  /** The digest of "abc". */
  lemma AbcDigest()
    ensures Sha1(ABC) == Digest(0xA9993E36, 0x4706816A, 0xBA3E2571, 0x7850C26C, 0x9CD0D89D)
  {
    AbcIsOneBlock();
    Rounds80();
    assert BLOCK[..0] == [] && BLOCK[0..] == BLOCK;
  }
}
